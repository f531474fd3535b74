# Verified models of the IDE libraries and the conversation importer

This project models the parts of the AI Memory IDE and of its import companion where a
mistake would cost a user data, and proves what they promise on every input, run or
interleaving:

- the **line diff** (`LineDiff`): a 16-bit table, a greedy walk and trimmed edges give a
  cheapest edit script;
- the **terminal controller** (`PtyOutput`, `PtyTab`, `PtyInput`): one tab as a state
  machine over the stretches between two `await`s, with the runtime as an append-only
  log, the record the controller updates in place as classes that take exactly those
  steps, and what its user sees of it (`PtyLaws`);
- **ZIP import** (`Zip`, `ZipImport`, `Crc32`): a byte-level parser, a table-driven
  checksum and the choice of paths;
- the **virtual workspace** (`Paths`, `PathTree`, `VirtualStore`, `VirtualWorkspace`,
  `TreeWalk`, `WalkEnds`, `ImportedWorkspace`): keys, directories and persistent records
  kept in step, and the walk that shows them; what single operations and path checks do is
  told by segments in `StoreLaws` and `PathLaws`;
- **change plans** (`FilePaths`, `ChangePlan`) and the **session ledger** (`SessionLedger`): preflight,
  failure at any step, rollback, and the list of changes against a baseline;
- the **formatter** (`WhiteSpace`, `Comments`, `Tokens`, `TokenLaws`, `Reindent`, `Formatter`): a
  scanner, a layout that loses nothing, and when what it writes is scanned to the same
  program again (`Rescan`);
- **ANSI colours** (`TerminalAnsi`, `AnsiLaws`, `GitColors`), the **importer** (`Importer`) and the **console
  scrollback** (`Scrollback`).

`Text` and `CodeUnits` hold the string and UTF-16 helpers. Code that works step by step is
written as methods and classes and proved equal to a specification function; the promises
are lemmas about that function. `dafny verify dfyconfig.toml` checks everything.

## Where the code does less than it seems to promise

For each, the lemma or contract named first says exactly when the promise holds and any
after it show an input for which it does not.

- A change plan overwrites a file whose tab holds unsaved changes if its path, normalised
  once, is not the path of the file, as in "././a" (`LostUpdateIff`, `LostUnderDots`).
- A file that a change plan creates and deletes again stays (`AppliedIff`,
  `CreatedThenDeletedStays`), also when it is named in two ways (`TwoSpellings`).
- The rollback of a plan keeps new files the editor cannot read and rewrites old ones
  through decoding and encoding (`RestoredIff`, `UnreadableNewFileStays`); the rollback of
  a promotion leaves out the step that failed (`PromotionRestoredIff`, `FailedStepStays`).
- A file creation that fails over a live change leaves an entry that no longer starts at
  its baseline (`StepKeepsIff`, `RunKeepsIff`, `FailedCreationBreaks`).
- A background refresh puts back the tabs that were open when it began: what was typed
  meanwhile is lost from the tab (`UnsavedSurvivesIff`, `TypedSurvivesIff`,
  `RefreshDiscardsEdit`).
- Removing the path that normalises to the empty one deletes the entry of the root
  (`RemoveKeepsClosedIff`, `RootRemoved`); a path like "././a" is stored under one key and
  recorded under another (`WriteInStepIff`, `WriteUnderDots`), and handles below "./" point
  elsewhere or at themselves (`HandlesFaithfulIff`, `DotIsItsOwnChild`), so that the walk of
  a workspace need not end (`WalkEndsIff`, `DotFileNeverEnds`).
- Output read before the turn of a listed tab is never tagged as replay
  (`ReplayTaggingIff`, `LateTurn`).
- A renderer that rejects once stops a tab from ever accepting output again
  (`OutputCanGoOnIff`, `RejectedFirstOutput`).
- The formatter squeezes blank lines inside template literals (`FormatDocument` and
  `VerbatimIff`, `ScanTemplate` and `BlankLinesInTemplate`).
- It writes most operators as they come: `a + +b` becomes `a++b`, which has other tokens
  (`RescansIff`, `ScanSum`, `SumBreaks` and `SumIsLaidOut`), and `x / *p` becomes a comment
  (`FormatDocument`, `ScanQuotient` and `QuotientOpensComment`).
- The status colouriser drops a carriage return after a short record
  (`StatusKeepsTextIff`, `CarriageReturnDropped`).
- Above the cell cap a diff is minimal only when the middles share no line (`BuildDiff`,
  `SharedLineLost`).

## Model

| member | source | states |
|---|---|---|
| LineDiff.BuildDiff | mia-ai-memory-app/src/lib/ideDiff.js:50-82 | for all texts of any size: the rows spell both sides, line numbers count 1..n on each side without gaps, the counters are those of the rows and differ by the difference in lines, an existing pair is clean exactly when its CRLF-normalised texts are equal, and the script is minimal up to the cap and above it exactly when the trimmed middles share no line |
| LineDiff.DiffOps | mia-ai-memory-app/src/lib/ideDiff.js:53-61 | trimming, aligning and reassembling gives a script from the first list to the second, free exactly when the lists are equal, and minimal under the same condition |
| LineDiff.LcsOps | mia-ai-memory-app/src/lib/ideDiff.js:14-48 | up to 180000 table cells no script between the two lists has fewer additions and deletions; above, it deletes everything and adds everything |
| LineDiff.FillTable | mia-ai-memory-app/src/lib/ideDiff.js:23-28 | every cell of the 16-bit table holds the length of the longest common subsequence of its two suffixes |
| LineDiff.FillRow | mia-ai-memory-app/src/lib/ideDiff.js:25-27 | one row, filled from right to left, holds those lengths, no store loses a bit, and no other row moves |
| LineDiff.CellsFit | mia-ai-memory-app/src/lib/ideDiff.js:17-27 | under the cap every cell is at most 424, so 16-bit storage equals unbounded arithmetic |
| LineDiff.WalkTable | mia-ai-memory-app/src/lib/ideDiff.js:29-47 | the three loops emit exactly the greedy walk over the ideal table |
| LineDiff.CellIsLcs | mia-ai-memory-app/src/lib/ideDiff.js:24-28 | the recurrence of the fill computes the independent definition of a longest common subsequence |
| LineDiff.WalkKeepsLcs | mia-ai-memory-app/src/lib/ideDiff.js:29-47 | the greedy walk is an edit script and keeps as many lines as the table promises |
| LineDiff.KeptAtMostLcs | mia-ai-memory-app/src/lib/ideDiff.js:14-48 | no edit script keeps more lines than a longest common subsequence |
| LineDiff.MinimalIffKeepsLcs | mia-ai-memory-app/src/lib/ideDiff.js:14-48 | a script is cheapest among all scripts exactly when it keeps a longest common subsequence |
| LineDiff.TrimCommonEdges | mia-ai-memory-app/src/lib/ideDiff.js:6-12 | the prefix is the longest common one, the suffix the longest common one of what is left, and they never overlap |
| LineDiff.EdgesUnique | mia-ai-memory-app/src/lib/ideDiff.js:6-12 | the two numbers are determined by the lists |
| LineDiff.TrimmingKeepsMinimality | mia-ai-memory-app/src/lib/ideDiff.js:53-61 | for any common edges, a script of the middles is minimal exactly when the script with the edges put back is |
| LineDiff.WholesaleMinimal | mia-ai-memory-app/src/lib/ideDiff.js:17-22 | replacing everything is minimal exactly when the two lists share no line |
| LineDiff.SharedLineLost | mia-ai-memory-app/src/lib/ideDiff.js:17-22 | two texts of 425 lines that share the middle one: what the diff promises of its script makes it not minimal |
| LineDiff.NumberRows | mia-ai-memory-app/src/lib/ideDiff.js:62-79 | numbering keeps the script, counts each side without gaps and counts additions and deletions |
| LineDiff.SameLinesIffSameText | mia-ai-memory-app/src/lib/ideDiff.js:1-4 | two texts split into the same lines exactly when their CRLF-normalised forms are equal |
| LineDiff.LinesSpellText | mia-ai-memory-app/src/lib/ideDiff.js:1-4 | the lines joined give the normalised text and none holds a line feed |
| PtyOutput.OutputProtocol | mia-ai-memory-app/src/lib/ptyTerminalController.js:30-180 | over every run of polls, stale answers, adoption from the session list, reconnects, detaching, closing, clearing and slow or failing renderers: what was appended is the runtime log in order up to the cursor, nothing twice or skipped unless it expired; the exit notice comes at most once and last; the scrollback is the last 512000 units shown since the last clear |
| PtyOutput.ReplayTaggingIff | mia-ai-memory-app/src/lib/ptyTerminalController.js:157-163 | over every run before and after the turn of a listed tab: output is tagged as replay exactly where it lies before the listed length, if and only if nothing from before that length was shown before the turn; with nothing expired that means nothing had been read or nothing was old; a dead tab never shows anything before its turn |
| PtyOutput.LateTurn | mia-ai-memory-app/src/lib/ptyTerminalController.js:157-163 | a live tab that is reconnected and read while an earlier dead tab is still being read: its old text is tagged as new for good |
| PtyOutput.OneBelievedCall | mia-ai-memory-app/src/lib/ptyTerminalController.js:85-118 | at any moment at most one call can still deliver output; meanwhile no poll is scheduled, its request carries the current cursor and the renderer has finished everything accepted |
| PtyOutput.AbortedNeverHeard | mia-ai-memory-app/src/lib/ptyTerminalController.js:94-116 | a poll that has lost the tab is not heard again over any later run: neither its answer nor its failure changes anything but the list of open calls |
| PtyOutput.StepKeeps | mia-ai-memory-app/src/lib/ptyTerminalController.js:47-180 | every stretch between two awaits keeps ownership of the tab, the cursor, the log, the tail, the exit notice and backpressure |
| PtyOutput.RunKeeps | mia-ai-memory-app/src/lib/ptyTerminalController.js:47-180 | the same over every run |
| PtyOutput.AnswerExtendsStream | mia-ai-memory-app/src/lib/ptyTerminalController.js:60-73 | one answer of the runtime, cut into its replayed and its new part, extends the appended stream by exactly the log between the old and the new cursor |
| PtyOutput.RejectionWedges | mia-ai-memory-app/src/lib/ptyTerminalController.js:74-77 | whatever call accepted it, a rendering that is still awaited is the one the tab remembers, and if a sink rejects it its failed promise stays behind |
| PtyOutput.OutputCanGoOnIff | mia-ai-memory-app/src/lib/ptyTerminalController.js:85-118 | for every reachable attached, open, running tab with unread log: some continuation moves the cursor exactly when the remembered rendering was not rejected, and then one reads the whole log |
| PtyOutput.RejectedFirstOutput | mia-ai-memory-app/src/lib/ptyTerminalController.js:128-146 | a new shell whose first output a sink rejects never reads the second character, whatever happens |
| PtyOutput.WedgedForever | mia-ai-memory-app/src/lib/ptyTerminalController.js:95-95 | from then on no run of events of any kind ever accepts another answer: every later poll fails on that promise |
| PtyLaws.AnswerIsShown | mia-ai-memory-app/src/lib/ptyTerminalController.js:60-73 | the answer to a believed call appears as a whole on the screen, behind the notice exactly if text had expired, and moves the cursor |
| PtyLaws.PollsGoOn | mia-ai-memory-app/src/lib/ptyTerminalController.js:85-118 | once the answer of a living shell is rendered, the next poll is scheduled, after a poll as after the start |
| PtyLaws.ExitIsShown | mia-ai-memory-app/src/lib/ptyTerminalController.js:76-83 | if the answer says that the shell has ended, the notice of its end with its status follows the rendered text |
| PtyLaws.DeadTabIsRead | mia-ai-memory-app/src/lib/ptyTerminalController.js:161-169 | a shell that is listed as dead is read to its end once its turn has come |
| PtyLaws.NewTabIsRead | mia-ai-memory-app/src/lib/ptyTerminalController.js:128-147 | a new tab starts its shell and shows what the first answer brings |
| PtyLaws.ClearEmpties | mia-ai-memory-app/src/lib/ptyTerminalController.js:253-253 | clearing empties the screen and what is kept of it; nothing is read again |
| PtyLaws.DetachSilences | mia-ai-memory-app/src/lib/ptyTerminalController.js:224-224 | from a detachment to the next attachment nothing is appended and nothing is read, whatever arrives |
| PtyLaws.ClosingSilences | mia-ai-memory-app/src/lib/ptyTerminalController.js:199-214 | a closed tab, or one that another replaces, is never appended to and never reads again |
| PtyLaws.AttachReads | mia-ai-memory-app/src/lib/ptyTerminalController.js:223-223 | a running tab that is attached again goes on where it was and reads the whole log, unless its remembered rendering was rejected |
| PtyLaws.FailureRetries | mia-ai-memory-app/src/lib/ptyTerminalController.js:106-115 | a poll that fails is tried again while the shell may live |
| PtyLaws.MissingEndsPolling | mia-ai-memory-app/src/lib/ptyTerminalController.js:110-113 | a poll that finds the session missing is the last: over every later run nothing is asked for, read or appended |
| PtyTab.PtyTab.Append | mia-ai-memory-app/src/lib/ptyTerminalController.js:30-42 | pushing a part and trimming the front loop keeps the exact tail and the exact size |
| PtyTab.PtyTab.TrimFront | mia-ai-memory-app/src/lib/ptyTerminalController.js:37-42 | dropping and cutting parts at the front leaves the last 512000 units and an exact counter |
| PtyTab.PtyTab.StopPoll | mia-ai-memory-app/src/lib/ptyTerminalController.js:47-54 | cancels the timer and gives the tab up |
| PtyTab.PtyTab.SchedulePoll | mia-ai-memory-app/src/lib/ptyTerminalController.js:85-89 | schedules one poll, unless the tab is detached, closed or not running or one is under way |
| PtyTab.PtyTab.TimerFires | mia-ai-memory-app/src/lib/ptyTerminalController.js:89-97 | a fresh owner either waits for the renderer or asks from the current cursor |
| PtyTab.PtyTab.RendererReady | mia-ai-memory-app/src/lib/ptyTerminalController.js:95-97 | a poll that waited for the renderer asks from the cursor of now, stops if it lost the tab, and fails if the renderer did |
| PtyTab.PtyTab.Accept | mia-ai-memory-app/src/lib/ptyTerminalController.js:56-76 | claims the cursor and appends the notice, the replayed and the new part in one stretch |
| PtyTab.PtyTab.Responds | mia-ai-memory-app/src/lib/ptyTerminalController.js:97-102 | an answer is accepted only while its call is believed |
| PtyTab.PtyTab.Accepted | mia-ai-memory-app/src/lib/ptyTerminalController.js:76-84 | after rendering: clears its own promise, shows the exit once, or goes on polling |
| PtyTab.PtyTab.CallFails | mia-ai-memory-app/src/lib/ptyTerminalController.js:106-116 | the catch blocks of the poll, of the creation and of the single read |
| PtyTab.PtyTab.CallEnds | mia-ai-memory-app/src/lib/ptyTerminalController.js:102-105 | what each caller does after a completed accept |
| PtyTab.PtyTab.ExitShown | mia-ai-memory-app/src/lib/ptyTerminalController.js:81-83 | the end of accept after the exit notice |
| PtyTab.PtyTab.Start | mia-ai-memory-app/src/lib/ptyTerminalController.js:128-134 | creation of the shell, at most one at a time |
| PtyTab.PtyTab.Adopted | mia-ai-memory-app/src/lib/ptyTerminalController.js:161-167 | the turn of a listed tab: marks what was listed as old, then polls a live shell or reads a dead one once; keeps the invariants |
| PtyTab.PtyTab.Attach | mia-ai-memory-app/src/lib/ptyTerminalController.js:223-223 | takes exactly the attach step of the protocol and keeps its invariants |
| PtyTab.PtyTab.Detach | mia-ai-memory-app/src/lib/ptyTerminalController.js:224-224 | takes exactly the detach step |
| PtyTab.PtyTab.Reconnect | mia-ai-memory-app/src/lib/ptyTerminalController.js:232-239 | takes exactly the reconnect step: the running poll is replaced |
| PtyTab.PtyTab.Close | mia-ai-memory-app/src/lib/ptyTerminalController.js:208-213 | takes exactly the step in which a closed tab stops its poll |
| PtyTab.PtyTab.Clear | mia-ai-memory-app/src/lib/ptyTerminalController.js:253-253 | forgets the kept text and its size, not the cursor |
| PtyInput.InputProtocol | mia-ai-memory-app/src/lib/ptyTerminalController.js:181-198 | over every run: the byte counter is the UTF-8 size of the queue plus the chunk in flight and never exceeds 65536, at most one write is in flight, nothing waits while none is, chunks go out in the order of admission and none twice |
| PtyInput.NeverResent | mia-ai-memory-app/src/lib/ptyTerminalController.js:190-194 | after an unconfirmed write the queue is empty, and no chunk admitted before it is ever sent again, whatever happens later |
| PtyInput.Lossless | mia-ai-memory-app/src/lib/ptyTerminalController.js:181-198 | while the tab stays live and writes are confirmed, the accepted texts joined are the chunks admitted, of which a prefix has been sent and the rest is queued |
| PtyInput.ChunkedFacts | mia-ai-memory-app/src/lib/ptyTerminalController.js:262-265 | cutting on character boundaries keeps the text and its byte count and makes no empty chunk and none above 4097 units |
| PtyInput.SizeIsUtf8 | mia-ai-memory-app/src/lib/ptyTerminalController.js:189-189 | the sizes counted are the lengths of the UTF-8 encoding, written out by code point, with U+FFFD for a lone surrogate |
| PtyInput.WriteIff | mia-ai-memory-app/src/lib/ptyTerminalController.js:255-268 | a text is taken exactly if the tab allows it, it is not empty and it fits into 65536 bytes, and then as a whole; otherwise nothing changes |
| PtyInput.Drains | mia-ai-memory-app/src/lib/ptyTerminalController.js:181-198 | while writes are confirmed in a live tab, everything that waits is sent in its order and the line falls idle and empty |
| PtyInput.StepKeeps | mia-ai-memory-app/src/lib/ptyTerminalController.js:181-268 | every stretch of write and flush keeps the counter, the order and the single flight |
| PtyInput.PtyLine.Enqueue | mia-ai-memory-app/src/lib/ptyTerminalController.js:262-265 | the loop queues exactly the specified chunks in order |
| PtyInput.PtyLine.Write | mia-ai-memory-app/src/lib/ptyTerminalController.js:255-268 | admits a whole text or nothing, exactly by the guards and the 64 KiB limit, and starts the flush when idle |
| PtyInput.PtyLine.FlushTurn | mia-ai-memory-app/src/lib/ptyTerminalController.js:185-197 | sends the next chunk, or leaves and drops the queue if the tab is gone |
| PtyInput.PtyLine.Confirmed | mia-ai-memory-app/src/lib/ptyTerminalController.js:187-189 | releases the bytes of the confirmed chunk and takes the next turn |
| PtyInput.PtyLine.Unconfirmed | mia-ai-memory-app/src/lib/ptyTerminalController.js:190-197 | drops the queue and leaves |
| Zip.RoundTrip | mia-ai-memory-app/src/lib/portableWorkspace.js:282-431 | for every list of members, stored or deflated by any writer the inflater undoes, within the 16- and 32-bit fields of APPNOTE sections 4.3.7, 4.3.12 and 4.3.16, not ZIP64, with accepted and distinct names: parsing the written archive gives exactly the written entries and unpacking each gives its bytes |
| Zip.AcceptedDirectory | mia-ai-memory-app/src/lib/portableWorkspace.js:313-376 | for every byte array an accepted directory has exactly the declared number of entries, unencrypted one-disk headers of stored or deflated members and no symbolic links that follow each other inside the central directory before the end record, and safe, pairwise distinct names |
| Zip.AcceptedNameIsSafe | mia-ai-memory-app/src/lib/portableWorkspace.js:291-297 | an accepted name is relative, uses single forward slashes and has no `.`, `..` or empty segment |
| Zip.NameIff | mia-ai-memory-app/src/lib/portableWorkspace.js:291-297 | a name is accepted exactly if, with forward slashes, it is not empty, not absolute, has no drive letter, no NUL and no empty, "." or ".." segment but for one slash at its end |
| Zip.EntryLimitNeverHit | mia-ai-memory-app/src/lib/portableWorkspace.js:325-327 | the limit of 80000 entries can never be the reason for a rejection: a 16-bit count stays below it |
| Zip.FindZipEocd | mia-ai-memory-app/src/lib/portableWorkspace.js:282-289 | finds the last end record within the last 65557 bytes, or none is there |
| Zip.ReadHeaders | mia-ai-memory-app/src/lib/portableWorkspace.js:330-373 | the loop reads the headers the specification reads and fails where it fails |
| Zip.ParseZipDirectory | mia-ai-memory-app/src/lib/portableWorkspace.js:313-376 | the imperative parser agrees with the specification on every byte array |
| Zip.Unzip | mia-ai-memory-app/src/lib/portableWorkspace.js:401-431 | the imperative reader agrees with the specification, checksum by table included |
| Zip.UnzipIff | mia-ai-memory-app/src/lib/portableWorkspace.js:401-431 | for every byte array and every entry with method 0 or 8: unpacking gives data exactly if the local header and the range of its data are there, the data is that range or what it inflates to, and its length and bit-serial CRC-32 are those of the directory |
| Zip.CentralRecordParses | mia-ai-memory-app/src/lib/portableWorkspace.js:334-372 | a written central record is read back field by field and stepped over exactly |
| Zip.LocalRecordUnzips | mia-ai-memory-app/src/lib/portableWorkspace.js:401-431 | a stored or deflated member is unpacked to its bytes and passes both checks |
| Zip.DamageRejected | mia-ai-memory-app/src/lib/portableWorkspace.js:401-431 | of a stored member that unpacks, an archive changed within four consecutive bytes of its data is rejected for its checksum |
| Zip.AcceptedNames | mia-ai-memory-app/src/lib/portableWorkspace.js:291-376 | the names of every accepted directory are safe and pairwise distinct |
| Crc32.ComputeCrc | mia-ai-memory-app/src/lib/portableWorkspace.js:395-399 | for every byte sequence the table-driven loop is the bit-serial CRC-32 of section 8 of RFC 1952 |
| Crc32.CrcTable | mia-ai-memory-app/src/lib/portableWorkspace.js:389-393 | every table entry is eight rounds on its index |
| Crc32.TableEntry | mia-ai-memory-app/src/lib/portableWorkspace.js:389-393 | the inner loop does eight rounds |
| Crc32.FeedByteIsRounds | mia-ai-memory-app/src/lib/portableWorkspace.js:397-397 | clocking a byte bit by bit is eight rounds on the register with the byte mixed in |
| Crc32.BurstDetected | mia-ai-memory-app/src/lib/portableWorkspace.js:395-399 | two buffers of one length that differ only within four consecutive bytes have different checksums |
| Crc32.CheckValue | mia-ai-memory-app/src/lib/portableWorkspace.js:389-399 | the digits from 1 to 9 have the published check value cbf43926, which settles polynomial, bit order, start and final value |
| ZipImport.ZipCommonRoot | mia-ai-memory-app/src/lib/portableWorkspace.js:299-311 | the result is a directory all files lie below, or the empty string exactly when there is none |
| ZipImport.SelectEntries | mia-ai-memory-app/src/lib/portableWorkspace.js:733-750 | the selection is every useful file in order; it fails exactly when a limit is broken or nothing is left |
| PathLaws.UsefulIff | mia-ai-memory-app/src/lib/portableWorkspace.js:740-747 | an entry of an accepted archive is imported exactly if it is a file, its name below the common root holds no NUL and no ignored directory, and it is one of the files that tell branches apart if it belongs to Git |
| ZipImport.PathIsRest | mia-ai-memory-app/src/lib/portableWorkspace.js:742-742 | the path of a file is its name without the root, already in normal form |
| ZipImport.PathsStayDistinct | mia-ai-memory-app/src/lib/portableWorkspace.js:742-742 | distinct accepted names stay distinct after stripping and normalising |
| ZipImport.ImportPathsDistinct | mia-ai-memory-app/src/lib/portableWorkspace.js:732-750 | for every byte array that parses, all selected paths are distinct |
| PathTree.NormalizeAgain | mia-ai-memory-app/src/lib/portableWorkspace.js:14-14 | normalising twice differs from normalising once exactly when the result still starts with "./" |
| PathTree.BelowIff | mia-ai-memory-app/src/lib/portableWorkspace.js:500-502 | the prefix test of the store finds exactly the keys whose segments extend those of the directory |
| PathTree.ChildIff | mia-ai-memory-app/src/lib/portableWorkspace.js:580-595 | the prefix and slash test of `entries` finds exactly the keys one segment below |
| Paths.NormalizeIsJoin | mia-ai-memory-app/src/lib/portableWorkspace.js:14-14 | the chain of regular expressions is: turn the slashes, strip one leading dot, rejoin the non-empty segments |
| StoreLaws.AnySpelling | mia-ai-memory-app/src/lib/portableWorkspace.js:14-14 | segments joined by either kind of slash, after "./" or not, normalise to the segments joined by forward slashes |
| VirtualStore.RunKeepsClosed | mia-ai-memory-app/src/lib/portableWorkspace.js:471-523 | over every run that does not remove the root, all ancestors of every file and directory stay directories, whatever the paths |
| VirtualStore.RemoveKeepsClosedIff | mia-ai-memory-app/src/lib/portableWorkspace.js:492-511 | a removal keeps every ancestor in place exactly when its path does not normalise to the empty one |
| VirtualStore.RootRemoved | mia-ai-memory-app/src/lib/portableWorkspace.js:492-511 | removing the empty path from a fresh store succeeds and leaves it without its root |
| VirtualStore.SeedFaithfulIff | mia-ai-memory-app/src/lib/portableWorkspace.js:471-482 | adding a path keeps every key a fixed point of normalisation exactly when its key does not start with "./" |
| VirtualStore.WriteInStepIff | mia-ai-memory-app/src/lib/portableWorkspace.js:484-490 | a write keeps memory and persistent records in step exactly when its key does not start with "./" |
| VirtualStore.WriteUnderDots | mia-ai-memory-app/src/lib/portableWorkspace.js:484-490 | "././a" is kept in memory as "a" and in the records as "./a" |
| VirtualStore.RunKeepsInv | mia-ai-memory-app/src/lib/portableWorkspace.js:471-523 | over every run of sound operations: ancestors present, keys faithful, memory and records in step |
| VirtualStore.ReloadShowsSameFiles | mia-ai-memory-app/src/lib/portableWorkspace.js:463-469 | reloading a store in step from its records, in any order, shows the same files with the same contents and loses only directories without files |
| VirtualStore.LoadedIsSound | mia-ai-memory-app/src/lib/portableWorkspace.js:463-523 | a store loaded from records with faithful paths is sound after every sound run |
| StoreLaws.WritesExactly | mia-ai-memory-app/src/lib/portableWorkspace.js:471-490 | a written file is there and recorded with its contents, the directories above it are there, and nothing else has changed |
| StoreLaws.MakesExactly | mia-ai-memory-app/src/lib/portableWorkspace.js:514-523 | a directory that is made is there with those above it, and nothing else has changed |
| StoreLaws.RemovesIff | mia-ai-memory-app/src/lib/portableWorkspace.js:492-507 | a removal fails exactly for what is neither file nor directory, and for a directory that holds something unless it is recursive |
| StoreLaws.RemovesExactly | mia-ai-memory-app/src/lib/portableWorkspace.js:492-512 | a removed file is gone, a removed directory is gone with everything in it, by segments, and everything else is as it was |
| VirtualWorkspace.VirtualWorkspaceStore.constructor | mia-ai-memory-app/src/lib/portableWorkspace.js:463-469 | the loop seeds every record in order |
| VirtualWorkspace.VirtualWorkspaceStore.Seed | mia-ai-memory-app/src/lib/portableWorkspace.js:471-482 | sets the file and adds exactly its ancestors |
| VirtualWorkspace.VirtualWorkspaceStore.AddDirectories | mia-ai-memory-app/src/lib/portableWorkspace.js:477-481 | the accumulating loop adds exactly the proper prefixes |
| VirtualWorkspace.VirtualWorkspaceStore.Write | mia-ai-memory-app/src/lib/portableWorkspace.js:484-490 | seeds under the key normalised twice and records under the key normalised once |
| VirtualWorkspace.VirtualWorkspaceStore.EnsureDirectory | mia-ai-memory-app/src/lib/portableWorkspace.js:514-523 | adds the directory and its ancestors |
| VirtualWorkspace.VirtualWorkspaceStore.Remove | mia-ai-memory-app/src/lib/portableWorkspace.js:492-512 | removes the file, or the directory with everything below it, or reports why not, and changes nothing then |
| TreeWalk.Children | mia-ai-memory-app/src/lib/portableWorkspace.js:580-599 | lists the names directly in a directory, each once, and no others |
| TreeWalk.HandlesFaithfulIff | mia-ai-memory-app/src/lib/portableWorkspace.js:597-598 | every handle `entries` produces points at what it was listed for exactly when every stored key is a fixed point of normalisation |
| TreeWalk.DotIsItsOwnChild | mia-ai-memory-app/src/lib/portableWorkspace.js:597-598 | with a stored "././x" the handle of "." is its own child |
| WalkEnds.WalkEndsIff | mia-ai-memory-app/src/hooks/useLocalWorkspace.js:404-428 | after any operations that spare the root, the recursion of the walk over the whole workspace is bounded exactly when no directory is stored under the key "./." |
| WalkEnds.DotFileNeverEnds | mia-ai-memory-app/src/hooks/useLocalWorkspace.js:404-428 | one file stored at "./././x" sends it down without end |
| TreeWalk.Scan.Walk | mia-ai-memory-app/src/hooks/useLocalWorkspace.js:410-428 | the recursive walk ends and lists every stored file below a directory outside ignored ones exactly once, up to the cap, and its tree shows the same files |
| TreeWalk.ListedUpToCap | mia-ai-memory-app/src/hooks/useLocalWorkspace.js:409-417 | the number listed is the smaller of 5000 and the number of visible files, and all are listed if they are no more |
| TreeWalk.ScanWorkspace | mia-ai-memory-app/src/hooks/useLocalWorkspace.js:404-433 | the same for the whole workspace |
| ImportedWorkspace.ImportIsShown | mia-ai-memory-app/src/lib/portableWorkspace.js:728-764 | for every byte array that can be imported: the store is sound and holds exactly the selected files, each with the bytes its entry unpacks to, and the walk can see each of them that is not inside a ".git" directory |
| ImportedWorkspace.ImportFromZip | mia-ai-memory-app/src/lib/portableWorkspace.js:728-764 | parses, selects and unpacks in order; the records are those of an import, or the first failure is reported |
| FilePaths.OneFile | mia-ai-memory-app/src/hooks/useLocalWorkspace.js:1243-1281 | reading, removing and writing through a path that passes the checks reach one file, though a write normalises the path once more and the walk strips its directory again |
| FilePaths.OwnFile | mia-ai-memory-app/src/hooks/useLocalWorkspace.js:75-79 | a path without dot segments is the path of its file |
| FilePaths.OtherFile | mia-ai-memory-app/src/hooks/useLocalWorkspace.js:1264-1272 | a path that still starts with "./" after the check never is |
| FilePaths.InnerDots | mia-ai-memory/services/workspace-runtime/src/index.js:137-147 | through the local runtime "a/./b", which passes as it is, reaches "a/b" |
| FilePaths.SafeAgain | mia-ai-memory-app/src/hooks/useLocalWorkspace.js:75-79 | what passes the checks passes them again, normalised once more |
| PathLaws.SafePathIff | mia-ai-memory-app/src/hooks/useLocalWorkspace.js:75-79 | a path passes the checks exactly if it names something, has ".." nowhere but at its end, holds no NUL and leads through no ignored directory; it is returned normalised |
| FilePaths.NativeIsLawful | mia-ai-memory-app/src/hooks/useLocalWorkspace.js:1249-1262 | a folder of the browser, which refuses dot names, is a file system as the results need it |
| FilePaths.RuntimeIsLawful | mia-ai-memory/services/workspace-runtime/src/index.js:116-158 | so is the local runtime, which resolves dots away |
| ChangePlan.Atomicity | mia-ai-memory-app/src/hooks/useLocalWorkspace.js:1488-1541 | a refused or conflicting plan writes nothing; a failed one leaves the disk as it was exactly when every file it touched can be restored, and a caller can tell beforehand for plans whose traces are readable; a successful one does what its operations say to the files they reach, in order, exactly when it does not create a file and delete it again, under whatever spelling |
| ChangePlan.PlanAnswer | mia-ai-memory-app/src/hooks/useLocalWorkspace.js:1488-1516 | told by the operations alone: refused exactly if the plan is empty or a path is refused or its file unreadable, in conflict exactly if some operation clashes with its file or an unsaved tab, else tried |
| ChangePlan.PlanEffect | mia-ai-memory-app/src/hooks/useLocalWorkspace.js:1514-1541 | a plan of operations on distinct files that is tried is rolled back only if a step fails or is unknown, and when it goes through has set or removed exactly the files named |
| ChangePlan.RestoredIff | mia-ai-memory-app/src/hooks/useLocalWorkspace.js:1529-1541 | after a step fails anywhere, leaving anything, the rollback restores the disk exactly when every old file touched survives decoding and encoding and every new one is gone or readable |
| ChangePlan.AtomicWhenGentle | mia-ai-memory-app/src/hooks/useLocalWorkspace.js:1514-1541 | enough for a complete rollback: old files that survive decoding and encoding, new texts the editor can read, and a failing step that leaves nothing or something readable |
| ChangePlan.AppliedIff | mia-ai-memory-app/src/hooks/useLocalWorkspace.js:1517-1528 | success equals the operations folded in order over the files they reach exactly when no file absent before is written and last deleted |
| ChangePlan.CreatedThenDeletedStays | mia-ai-memory-app/src/hooks/useLocalWorkspace.js:1522-1524 | [write a, delete a] on a new path keeps a |
| ChangePlan.TwoSpellings | mia-ai-memory-app/src/hooks/useLocalWorkspace.js:1493-1524 | [write "././a", delete "a"] on an empty disk succeeds and keeps a |
| ChangePlan.UnreadableNewFileStays | mia-ai-memory-app/src/hooks/useLocalWorkspace.js:1533-1538 | a new file the editor cannot read survives the rollback |
| ChangePlan.NoLostUpdate | mia-ai-memory-app/src/hooks/useLocalWorkspace.js:1493-1512 | an accepted operation that declares what it expects meets at its file exactly the text the agent was shown or no file, and an unsaved buffer under its path, or at its file if the path spells it, equals that text, if the hash is injective |
| ChangePlan.LostUpdateIff | mia-ai-memory-app/src/hooks/useLocalWorkspace.js:1493-1519 | unsaved changes in an open tab can be lost to a fully declared write exactly when the path, normalised once, is not the path of the file it reaches |
| ChangePlan.LostUpdateByPath | mia-ai-memory-app/src/hooks/useLocalWorkspace.js:1493-1519 | so they can under every accepted path that still starts with "./" and cannot under any path without dot segments |
| ChangePlan.LostUnderDots | mia-ai-memory-app/src/hooks/useLocalWorkspace.js:1493-1519 | writing "././a" over the text it was shown drops the unsaved changes in the tab "a" |
| ChangePlan.UndeclaredOverwrites | mia-ai-memory-app/src/hooks/useLocalWorkspace.js:1499-1503 | an operation that declares nothing is accepted over any text |
| ChangePlan.ReadyMeans | mia-ai-memory-app/src/hooks/useLocalWorkspace.js:1490-1512 | an accepted plan has one step per operation, in order, each at the file its path reaches with the text there before the plan and without conflict |
| ChangePlan.Workspace.Inspect | mia-ai-memory-app/src/hooks/useLocalWorkspace.js:1490-1512 | the preflight loop gathers what the specification gathers |
| ChangePlan.Workspace.TakeSteps | mia-ai-memory-app/src/hooks/useLocalWorkspace.js:1514-1528 | takes the steps until one fails, and says which |
| ChangePlan.Workspace.RollBack | mia-ai-memory-app/src/hooks/useLocalWorkspace.js:1530-1539 | undoes the attempted steps last first |
| ChangePlan.Workspace.ApplyChangePlan | mia-ai-memory-app/src/hooks/useLocalWorkspace.js:1488-1541 | preflight, steps and rollback together |
| ChangePlan.PromotionRestoredIff | mia-ai-memory-app/src/hooks/useLocalWorkspace.js:769-789 | the promotion notes a step as applied only after success, so the folder is restored exactly when the failing step left its file alone or an applied one is at the same file, and the applied ones can be undone |
| ChangePlan.PromotionAtomicity | mia-ai-memory-app/src/hooks/useLocalWorkspace.js:754-789 | the same for the whole promotion, and nothing is written on a conflict |
| ChangePlan.PromotionAnswer | mia-ai-memory-app/src/hooks/useLocalWorkspace.js:754-768 | told by the changes alone: refused exactly if a path is refused or its file unreadable, in conflict exactly if some file is no longer, in existence or in text, what its change was made from, else tried |
| ChangePlan.PromotionEffect | mia-ai-memory-app/src/hooks/useLocalWorkspace.js:769-789 | a promotion to distinct files that is tried is rolled back only if a step fails, and when it goes through has set every file to its new text or removed it, and nothing else |
| ChangePlan.FailedStepStays | mia-ai-memory-app/src/hooks/useLocalWorkspace.js:769-787 | a step that fails half-way leaves what it wrote |
| ChangePlan.Workspace.PromoteChanges | mia-ai-memory-app/src/hooks/useLocalWorkspace.js:754-789 | the promotion as it runs |
| SessionLedger.StepKeepsIff | mia-ai-memory-app/src/hooks/useLocalWorkspace.js:258-278 | every event keeps the list sorted, one entry per path, each starting at its baseline and ending elsewhere, exactly unless a creation over a live entry with another start fails to be written or is reported under another path |
| SessionLedger.RunKeepsIff | mia-ai-memory-app/src/hooks/useLocalWorkspace.js:258-278 | over every session the ledger is sound all along exactly when no event breaks the ledger it meets |
| SessionLedger.BaselineStays | mia-ai-memory-app/src/hooks/useLocalWorkspace.js:489-489 | while a path has an entry no edit, close, plan or refresh moves its baseline |
| SessionLedger.BaselineMoves | mia-ai-memory-app/src/hooks/useLocalWorkspace.js:1156-1156 | a known baseline is moved only by a reset, a creation, or a refresh of a path without entry, and then to the text on disk |
| SessionLedger.TrackReports | mia-ai-memory-app/src/hooks/useLocalWorkspace.js:258-278 | after a report its path has an entry exactly when the file differs from the baseline, with exactly those two versions, and all other entries stay |
| SessionLedger.EditReports | mia-ai-memory-app/src/hooks/useLocalWorkspace.js:1234-1245 | typing is reported as typed, the tab holds it against the text last saved, and nothing else changes |
| SessionLedger.CloseReports | mia-ai-memory-app/src/hooks/useLocalWorkspace.js:1310-1324 | closing a tab with unsaved text reports the text last saved; closing any other reports nothing |
| SessionLedger.SaveReports | mia-ai-memory-app/src/hooks/useLocalWorkspace.js:1283-1295 | saving makes the shown text the saved one and reports nothing |
| SessionLedger.OpenReports | mia-ai-memory-app/src/hooks/useLocalWorkspace.js:1097-1117 | opening shows the text on disk and takes it as the baseline of a file not met before |
| SessionLedger.AgentReports | mia-ai-memory-app/src/hooks/useLocalWorkspace.js:1514-1541 | what a plan does is reported from what was there to what it leaves, and touches no tab |
| SessionLedger.CreateReports | mia-ai-memory-app/src/hooks/useLocalWorkspace.js:1338-1340 | a created file starts from nothing and is reported empty |
| SessionLedger.CloseSpeaksOfSaved | mia-ai-memory-app/src/hooks/useLocalWorkspace.js:1310-1324 | over every run that opens a tab, edits and saves it any number of times with work on other tabs in between, and closes it: the session speaks of exactly the text last saved, or of the text opened if none was |
| SessionLedger.DiscardLeavesNoTrace | mia-ai-memory-app/src/hooks/useLocalWorkspace.js:1310-1324 | opening a file, typing any number of times without saving and closing it leaves every entry and baseline of a sound ledger as opening alone would |
| SessionLedger.FailedCreationBreaks | mia-ai-memory-app/src/hooks/useLocalWorkspace.js:1338-1340 | the baseline is replaced before the write: a failing write leaves an entry that no longer starts at it |
| SessionLedger.InsertSorted | mia-ai-memory-app/src/hooks/useLocalWorkspace.js:265-275 | the new entry goes where the list stays sorted under any collation |
| SessionLedger.Session.TrackChange | mia-ai-memory-app/src/hooks/useLocalWorkspace.js:258-278 | takes exactly the tracking step |
| SessionLedger.Session.UpdateContent | mia-ai-memory-app/src/hooks/useLocalWorkspace.js:1234-1245 | takes exactly the edit step |
| SessionLedger.Session.CloseTab | mia-ai-memory-app/src/hooks/useLocalWorkspace.js:1310-1324 | takes exactly the step of closing a tab |
| SessionLedger.UnsavedSurvivesIff | mia-ai-memory-app/src/hooks/useLocalWorkspace.js:1126-1167 | unsaved text survives a refresh, whatever it read and found gone and whatever happened meanwhile, exactly when its tab was open with the same text when the refresh began; the ledger keeps what happened |
| SessionLedger.TypedSurvivesIff | mia-ai-memory-app/src/hooks/useLocalWorkspace.js:1126-1167 | text typed during a refresh is lost from its tab unless the tab held that very text, unsaved, when the refresh began |
| SessionLedger.UntouchedSurvives | mia-ai-memory-app/src/hooks/useLocalWorkspace.js:1126-1167 | unsaved text from before the refresh survives if no event in between concerns its tab |
| SessionLedger.RefreshDiscardsEdit | mia-ai-memory-app/src/hooks/useLocalWorkspace.js:1126-1167 | what is typed into a clean tab while a refresh reads another, changed one is gone from the tab, which is clean again, while the ledger keeps its entry |
| SessionLedger.Session.ReadTab | mia-ai-memory-app/src/hooks/useLocalWorkspace.js:1132-1156 | a tab read from disk moves its baseline unless it has an entry |
| SessionLedger.Session.ReplaceTabs | mia-ai-memory-app/src/hooks/useLocalWorkspace.js:1151-1165 | the tabs rebuilt from those open at the start replace whatever is open at the end |
| SessionLedger.Session.OpenFile | mia-ai-memory-app/src/hooks/useLocalWorkspace.js:1097-1117 | takes exactly the step of opening a file |
| SessionLedger.Session.CreateFile | mia-ai-memory-app/src/hooks/useLocalWorkspace.js:1338-1340 | takes exactly the creation step, written or failed |
| Tokens.ScanTokens | mia-ai-memory-app/src/lib/ideFormatter.js:55-117 | the scanner gives exactly the specified tokens, always advances and loses nothing: the source is its tokens, to the letter and in order, with only white space around them, and only the last may be left open; where a slash never opens a regular expression, a visible character of the source is read as part of a comment, character by character, exactly if its token is one |
| Tokens.ScanToken | mia-ai-memory-app/src/lib/ideFormatter.js:65-114 | exactly the specified token, kind and extent; it has at least one character, and a line comment reaches exactly to its line feed |
| Tokens.ReadQuoted | mia-ai-memory-app/src/lib/ideFormatter.js:11-22 | ends behind a closing quote or at the end of the source |
| Tokens.ReadRegex | mia-ai-memory-app/src/lib/ideFormatter.js:26-53 | ends behind the first unescaped slash outside a character class and the letters that follow it, if it comes before an unescaped line break; else nothing is read |
| Tokens.FindOperator | mia-ai-memory-app/src/lib/ideFormatter.js:107-107 | finds the first operator of the table the text starts with |
| TokenLaws.MaximalMunch | mia-ai-memory-app/src/lib/ideFormatter.js:6-6 | of the operators a text starts with the longest is found |
| TokenLaws.OperatorsScanAlone | mia-ai-memory-app/src/lib/ideFormatter.js:6-6 | each of the 47 operators, written out, scans by itself to one operator token in every language, and nothing else does |
| TokenLaws.ScanPlaces | mia-ai-memory-app/src/lib/ideFormatter.js:55-117 | the tokens stand one after the other in the source, each read where it stands, with white space alone around them |
| TokenLaws.OperatorsLongest | mia-ai-memory-app/src/lib/ideFormatter.js:107-112 | no longer operator starts where an operator of a scan stands |
| TokenLaws.NoJoin | mia-ai-memory-app/src/lib/ideFormatter.js:107-112 | two operators that stand next to each other in the source without white space do not join to one of the table |
| TokenLaws.WordsWhole | mia-ai-memory-app/src/lib/ideFormatter.js:93-99 | a word starts exactly with a letter, "_" or "$" and is the longest stretch of these and digits |
| TokenLaws.NumbersWhole | mia-ai-memory-app/src/lib/ideFormatter.js:100-106 | a number starts exactly with a digit and is the longest stretch of letters, digits, "_" and "." |
| TokenLaws.LineCommentsRead | mia-ai-memory-app/src/lib/ideFormatter.js:65-71 | exactly two slashes start a line comment, which goes on to the end of the line |
| TokenLaws.BlockCommentsRead | mia-ai-memory-app/src/lib/ideFormatter.js:72-78 | exactly a slash and an asterisk start a block comment, which ends behind the first asterisk and slash, or with the source |
| TokenLaws.MarksRead | mia-ai-memory-app/src/lib/ideFormatter.js:113-114 | a mark is one character that starts no word, number, literal, comment or operator |
| TokenLaws.QuotedReads | mia-ai-memory-app/src/lib/ideFormatter.js:87-92 | any literal spelled with escapes between quotes of one kind is read up to its closing quote, whatever follows |
| TokenLaws.RegexReads | mia-ai-memory-app/src/lib/ideFormatter.js:79-86 | any regular expression spelled with escapes and classes, where one can stand, is read up to its slash and flags in JavaScript and TypeScript |
| Formatter.FormatDocument | mia-ai-memory-app/src/lib/ideFormatter.js:327-349 | JSON that parses becomes its reprint and a line feed; everything else keeps exactly its visible characters, in order; a document with a layout is the text laid out of the tokens the scanner reads in it, shows them to the letter with neighbours set apart or tight exactly if they are calm, then is scanned to the same tokens exactly if each survives standing next to the others, as far as that is decided by operators written as they come, and, where a slash never opens a regular expression, has as comments what the scanner read as comments before exactly if no operator "/" is directly followed by the operator "/", "*", "**" or "**=" |
| Formatter.ScanQuotient | mia-ai-memory-app/src/lib/ideFormatter.js:55-117 | in every language the scanner reads "x / *p" as a name, a slash, an asterisk and a name |
| Formatter.QuotientOpensComment | mia-ai-memory-app/src/lib/ideFormatter.js:289-303 | in Go that document is laid out and its slash is glued |
| Formatter.ColoredPut | mia-ai-memory-app/src/lib/ideFormatter.js:136-140 | a token put at the end of a line is read there as by itself, unless it is glued to a slash and opens a comment |
| Formatter.ColoredBlock | mia-ai-memory-app/src/lib/ideFormatter.js:155-164 | a re-indented block comment is read as a comment throughout and closes where it did |
| Formatter.SqueezePaints | mia-ai-memory-app/src/lib/ideFormatter.js:317-317 | squeezing runs of line feeds changes neither what is a comment nor what is left open |
| Formatter.FormatStructured | mia-ai-memory-app/src/lib/ideFormatter.js:119-318 | the lines laid out are the tokens in order with white space between; the result is that text after the final pass |
| Formatter.LineCommentEnds | mia-ai-memory-app/src/lib/ideFormatter.js:149-154 | every line comment ends its line in the result, the tokens before it stand before it, and what follows starts on a new line |
| Formatter.VerbatimIff | mia-ai-memory-app/src/lib/ideFormatter.js:317-317 | the result shows every token to the letter, but for white space at its end, exactly when no token holds three line feeds in a row before its end: the final pass also squeezes blank lines inside template literals |
| Rescan.RescansIff | mia-ai-memory-app/src/lib/ideFormatter.js:119-318 | for every text of the tokens with neighbours set apart and tight as the layout leaves them: it is scanned to the same tokens, but for white space in comments and at the end of an open literal, if each survives being written together with those behind it that need not be set apart, and not if one joins the next |
| Rescan.Rescans | mia-ai-memory-app/src/lib/ideFormatter.js:55-318 | the sufficient half for all documents: no number may take a dot along, no operator grow, no two characters open a comment and no slash a regular expression |
| Rescan.JoinsBreak | mia-ai-memory-app/src/lib/ideFormatter.js:289-304 | two operators that the layout writes as they come and that join to a longer one or to the start of a comment are never scanned as two again |
| Rescan.ScanSum | mia-ai-memory-app/src/lib/ideFormatter.js:55-117 | in every language the scanner reads "a + +b" as a name, two signs and a name |
| Rescan.SumBreaks | mia-ai-memory-app/src/lib/ideFormatter.js:289-304 | however that document is formatted, the result has other tokens: an increment |
| Formatter.SumIsLaidOut | mia-ai-memory-app/src/lib/ideFormatter.js:289-304 | in Java that document is laid out and its tokens are calm |
| Formatter.ScanTemplate | mia-ai-memory-app/src/lib/ideFormatter.js:55-117 | in every language the scanner reads a template literal with two blank lines as one literal |
| Formatter.BlankLinesInTemplate | mia-ai-memory-app/src/lib/ideFormatter.js:317-317 | in JavaScript that document is laid out and its token is not calm |
| Formatter.Layout.Emit | mia-ai-memory-app/src/lib/ideFormatter.js:147-309 | every branch of the layout appends exactly its token |
| Formatter.Layout.PutLineComment | mia-ai-memory-app/src/lib/ideFormatter.js:149-154 | appends the comment and ends the line |
| Formatter.Layout.PutBlockComment | mia-ai-memory-app/src/lib/ideFormatter.js:155-164 | re-indents the lines of the comment and changes nothing visible |
| Reindent.BlockReflows | mia-ai-memory-app/src/lib/ideFormatter.js:155-164 | re-indented and trimmed line by line a block comment keeps its visible text and is closed where it was, or as open as it was |
| Formatter.Layout.CloseBrace | mia-ai-memory-app/src/lib/ideFormatter.js:189-205 | appends the brace in its three layouts |
| Formatter.Layout.Commit | mia-ai-memory-app/src/lib/ideFormatter.js:130-134 | ends a line that holds something and drops one that does not |
| Formatter.Compact | mia-ai-memory-app/src/lib/ideFormatter.js:312-316 | dropping doubled blank lines drops nothing, since no line is blank |
| Formatter.FinalText | mia-ai-memory-app/src/lib/ideFormatter.js:317-317 | join, squeeze and trim give the laid-out text squeezed |
| Formatter.TrailingOnly | mia-ai-memory-app/src/lib/ideFormatter.js:8-8 | trimming trailing white space changes nothing visible |
| Formatter.SqueezeConcat | mia-ai-memory-app/src/lib/ideFormatter.js:317-317 | runs of line feeds on two sides of a visible character are squeezed apart from each other |
| TerminalAnsi.ParseTerminalAnsi | mia-ai-memory-app/src/lib/terminalAnsi.js:49-63 | the segments are, character by character, what a terminal shows of the text, none is empty, and the returned state is the one the text leaves |
| TerminalAnsi.StreamingIff | mia-ai-memory-app/src/lib/terminalAnsi.js:49-63 | parsing two pieces in turn shows what parsing the whole shows exactly when the cut is not inside an escape, and then leaves the same state |
| TerminalAnsi.ApplySgr | mia-ai-memory-app/src/lib/terminalAnsi.js:20-47 | the loop with its skips is the reading of the codes one group at a time |
| TerminalAnsi.PaletteColor | mia-ai-memory-app/src/lib/terminalAnsi.js:6-18 | defined exactly for 0 to 255, and every component stays below 256 |
| TerminalAnsi.ShownProper | mia-ai-memory-app/src/lib/terminalAnsi.js:20-63 | whatever the escapes say, every colour shown is one of the eight names or has components up to 255 |
| AnsiLaws.SpelledIsHeard | mia-ai-memory-app/src/lib/terminalAnsi.js:20-47 | for every style in force and every proper style spelled out in parameters: the escape sets exactly that style |
| AnsiLaws.SpelledIsShown | mia-ai-memory-app/src/lib/terminalAnsi.js:49-63 | a text behind such an escape is shown in that style, and the escape is not shown |
| AnsiLaws.IndexIsHeard | mia-ai-memory-app/src/lib/terminalAnsi.js:38-41 | 38;5;n and 48;5;n set the colour of the palette in front or behind, and change nothing past 255 |
| AnsiLaws.PaletteCube | mia-ai-memory-app/src/lib/terminalAnsi.js:6-18 | the 216 colours of the cube have the levels 0, 95, 135, 175, 215 and 255, blue running fastest |
| AnsiLaws.PaletteNames | mia-ai-memory-app/src/lib/terminalAnsi.js:8-8 | the first sixteen are the eight names, then bright |
| AnsiLaws.PaletteGreys | mia-ai-memory-app/src/lib/terminalAnsi.js:9-12 | the last 24 are greys from 8 in steps of 10 |
| AnsiLaws.ResetIsHeard | mia-ai-memory-app/src/lib/terminalAnsi.js:21-24 | an escape without parameters, or with a zero, takes everything back |
| AnsiLaws.OthersAreIgnored | mia-ai-memory-app/src/lib/terminalAnsi.js:20-47 | every number by itself that is none of the known codes changes nothing |
| TerminalAnsi.MergeTerminalColorSegments | mia-ai-memory-app/src/lib/terminalAnsi.js:202-233 | for any two lists: the result is, character by character, native style over fallback as far as both go, no segment is empty and no two neighbours have one style |
| AnsiLaws.LayersMerge | mia-ai-memory-app/src/lib/terminalAnsi.js:214-216 | merging styles is layering: a plain layer changes nothing, the colours of the upper one show, and the grouping does not matter |
| TerminalAnsi.ZipKeepsText | mia-ai-memory-app/src/lib/terminalAnsi.js:202-233 | for two colourings of one text no character is lost |
| GitColors.ColorizeGitCommitOutput | mia-ai-memory-app/src/lib/terminalAnsi.js:157-200 | the text is kept, every line gets the colours of its kind, and neighbours differ |
| GitColors.ShowCommitOutput | mia-ai-memory-app/src/components/ide/TerminalAnsiOutput.jsx:30-35 | parsing, colouring the visible text and merging shows exactly the visible text |
| GitColors.ColorizeGitStatusOutput | mia-ai-memory-app/src/lib/terminalAnsi.js:102-145 | every line gets the pieces of its kind in the section in force, and neighbours differ |
| GitColors.StatusKeepsTextIff | mia-ai-memory-app/src/lib/terminalAnsi.js:119-134 | the status colouriser keeps the text exactly when no short record of a changed file has a line terminator other than one final line feed after its path |
| GitColors.CarriageReturnDropped | mia-ai-memory-app/src/lib/terminalAnsi.js:89-97 | " M a" with a carriage return before its line feed is such a line |
| GitColors.CommitLineColors | mia-ai-memory-app/src/lib/terminalAnsi.js:171-198 | a header is green and bold, a created file green, a deleted one red, a summary green up to its counts |
| GitColors.CountAt | mia-ai-memory-app/src/lib/terminalAnsi.js:189-197 | of the counts every character inside a match is red if the match counts deletions and green if not, and every other one is plain |
| GitColors.StatusColumns | mia-ai-memory-app/src/lib/terminalAnsi.js:89-134 | a short record is green in the index column for a change there, red in the worktree column for one there, and its path in the colour of the one there is or yellow for both; conflicts are red throughout |
| GitColors.UntrackedColumns | mia-ai-memory-app/src/lib/terminalAnsi.js:89-134 | and so are untracked files |
| Importer.FrameRoundTrip | mia-ai-memory/companions/ai-memory-importer/src/main.rs:838-841 | length-framed parts decode to exactly their parts |
| Importer.EqualKeysMean | mia-ai-memory/companions/ai-memory-importer/src/main.rs:820-836 | equal ingest keys mean the same session, index, event and body, or two inputs with one digest |
| Importer.EqualFingerprintsMean | mia-ai-memory/companions/ai-memory-importer/src/main.rs:807-818 | equal fingerprints mean the same conversation, or two inputs with one digest |
| Importer.KeysDistinct | mia-ai-memory/companions/ai-memory-importer/src/main.rs:606-681 | no two events of one plan share a key |
| Importer.EqualSessionsMean | mia-ai-memory/companions/ai-memory-importer/src/main.rs:791-805 | two conversations get one session identifier exactly if workspace, project, source and external session are the same, or the digests of what tells them apart agree in their first 32 characters |
| Importer.ConversationsKeepApart | mia-ai-memory/companions/ai-memory-importer/src/main.rs:592-681 | events of two different conversations share no key, or a digest collides |
| Importer.BothAreDelivered | mia-ai-memory/companions/ai-memory-importer/src/main.rs:373-392 | after two different conversations are delivered every event of both is there, none taken for known, or a digest collides |
| Importer.PlanReadsBack | mia-ai-memory/companions/ai-memory-importer/src/main.rs:592-681 | the events of a plan are numbered from zero, open with the session start and end with the session end, carry one session and source, and give back every message to the letter, in order, under the event of its role |
| Importer.SentMeans | mia-ai-memory/companions/ai-memory-importer/src/main.rs:562-590 | a message is sent redacted and, if then longer than 16384 bytes for a user and 2000 for others, as its longest beginning within the limit that ends between characters |
| Importer.AcceptableIff | mia-ai-memory/companions/ai-memory-importer/src/main.rs:549-590 | acceptable are exactly 1 to 128 messages of at most 1 MiB together, with a user message and none blank as sent |
| Importer.LabelIff | mia-ai-memory/companions/ai-memory-importer/src/main.rs:763-778 | a label is taken exactly if, trimmed, it is neither empty nor too long and holds no control character, slash or backslash |
| Importer.SourceNameIff | mia-ai-memory/companions/ai-memory-importer/src/main.rs:780-789 | a source name exactly if, trimmed, it has 1 to 64 letters, digits, ".", "_", "-" or ":" |
| Importer.SentEnvelopeMeans | mia-ai-memory/companions/ai-memory-importer/src/main.rs:524-590 | what is sent has the labels trimmed and every message as it is sent, in order |
| Importer.ExtensionKeeps | mia-ai-memory/companions/ai-memory-importer/src/main.rs:592-681 | a longer transcript keeps the start and every shared message, keys included |
| Importer.ExtensionEndsAnew | mia-ai-memory/companions/ai-memory-importer/src/main.rs:664-681 | its session end has a key of its own |
| Importer.RerunSendsSameKeys | mia-ai-memory/companions/ai-memory-importer/src/main.rs:562-681 | the same for the messages as they are read, before redaction and truncation |
| Importer.ResumeCompletes | mia-ai-memory/companions/ai-memory-importer/src/main.rs:373-392 | a run cut off after any number of events is completed by running it again |
| Importer.ExtensionDeliversTheRest | mia-ai-memory/companions/ai-memory-importer/src/main.rs:592-681 | after a delivered transcript its longer version adds only what follows the shared messages |
| Importer.TruncatedKeepsCharacters | mia-ai-memory/companions/ai-memory-importer/src/main.rs:859-868 | cutting never splits a character and cuts at the last boundary within the limit |
| Importer.Prepare | mia-ai-memory/companions/ai-memory-importer/src/main.rs:549-590 | accepts exactly within the limits, with a user message and no empty one, then redacts and cuts every message and counts the cuts |
| Importer.Sha256Parts | mia-ai-memory/companions/ai-memory-importer/src/main.rs:830-836 | feeding the hasher part by part hashes the framed parts |
| Importer.ConversationFingerprint | mia-ai-memory/companions/ai-memory-importer/src/main.rs:807-818 | hashes the framed version, project, source, session and messages in order |
| Importer.PlanEvents | mia-ai-memory/companions/ai-memory-importer/src/main.rs:592-681 | start, messages in order, end |
| Importer.PlanExternalConversation | mia-ai-memory/companions/ai-memory-importer/src/main.rs:524-694 | a plan exists exactly when the workspace, project, source and session labels are valid, the file is regular, small enough and parses, its messages are within the limits and the server URL parses; it is then the events of the conversation with labels trimmed and messages redacted and cut, under the workspace as given |
| Importer.ImportableFits | mia-ai-memory/companions/ai-memory-importer/src/main.rs:524-590 | everything the fingerprint of an acceptable file hashes has a 64-bit length |
| Importer.SameTranscriptMeans | mia-ai-memory/companions/ai-memory-importer/src/main.rs:807-818 | two acceptable files have one fingerprint exactly when they hold the same conversation once trimmed, redacted and cut, or the fingerprints collide |
| Scrollback.OnlineIsOffline | mia-ai-memory-app/src/lib/terminalController.js:4-8 | however the stream is cut into batches, folding them gives what one call on the whole stream gives |
| Scrollback.TwoBatches | mia-ai-memory-app/src/lib/terminalController.js:4-8 | appending in two batches is appending in one, whatever was there before |
| Scrollback.KeptIsLongest | mia-ai-memory-app/src/lib/terminalController.js:4-8 | what is kept is the longest tail with at most 160000 units and 600 entries |

## Left out

- Text outside the terminal controller and the scrollback is a sequence of characters; a surrogate pair counts as one, where JavaScript counts two code units.
- The runtime log is assumed to answer with `nextCursor` present, never below the cursor asked for, and with exactly the log between (`mia-ai-memory/services/workspace-runtime/src/terminal-output.js:20-39`); the step past half a surrogate pair there is not modelled, since cursors only come from the runtime.
- Tabs are modelled one at a time; the order in which the tabs of a session list get their turns, choosing the active tab, `resize`, names and error texts are not part of this model. Sinks do not call back into the controller while they render, and delivery flags of parts are not kept.
- PtyOutput.RunKeeps: the initial states are a created tab and a listed one; a tab whose id is reused after closing is not modelled.
- ParseZipDirectory: decoding of names (UTF-8 and Latin-1) is a parameter, and times stay in their DOS fields.
- RoundTrip: DEFLATE is a parameter: the packed bytes of a deflated member are any from which the inflater gives its data.
- DamageRejected: stored members only, since what damaged packed bytes inflate to depends on DEFLATE.
- SelectEntries: storage quota, project naming and the other three ways to import a folder are left out; they use the same path checks.
- VirtualStore: persistent writes are taken to succeed and to happen with the call; a failing or reordered write of the browser database is not modelled.
- TreeWalk.Scan.Walk: the store is taken to stay as it is during a scan; sorting of siblings, languages and Git detection are left out.
- FileOf: a file system is a function of the names walked; symbolic links, names that differ in case only, and a browser workspace walked through a name ".", where the answer depends on the directories it has, are not part of this model.
- ApplyChangePlan: project and branch checks before the preflight, tab reloading after success and directories created on the way are left out; the file map is what is restored. Rollback writes are taken to succeed.
- PromoteChanges: the discovery of differences when no change was tracked, and registration of the project, are left out.
- SessionLedger: reading one tab and putting the rebuilt tabs in place are separate events with nothing to tie them to one refresh; switching projects swaps whole ledgers and is not modelled; the order of entries that a collation calls equal is the stable one.
- FormatStructured: where spaces and line breaks go is modelled in full but characterised only as far as neighbours must be set apart or stand together. In JavaScript and TypeScript, where a slash may open a regular expression, that comments stay comments is not stated by marks; that tokens stay tokens is.
- RescansIff: two marks of which one is no operator written as it comes, such as two colons or the closing brackets of nested generics, are written together or not depending on the nesting; a document in which such a pair would join is not decided, nor one whose number is followed by a dot that is a token of its own.
- FormatDocument: what a comment is is what the scanner reads as one, not what the language says. In Rust `fn f<'a>() // don't` the scanner takes `'a>() // don'` for a literal, and a brace on the next line is laid out behind the comment.
- FormatDocument: parsing and printing JSON is a parameter.
- ApplySgr: a parameter with hundreds of digits becomes Infinity in JavaScript; here it is a large number, which no code compares equal to either, but which would count as an integer after 38;5.
- ColorizeGitCommitOutput: which lines are headers, summaries and counts is left to recognisers; the regular expressions are not modelled.
- ColorizeGitStatusOutput: section headings and the long format are left to recognisers; the short format is modelled.
- PlanExternalConversation: the URL of each event and the manifest are left out, trimming, redaction and parsing are parameters, and the receiver is taken to keep the first event under every key.
- EqualKeysMean: SHA-256 is any function; results name the two inputs that would collide instead of assuming there are none. The JSON writer is taken to be injective.
- Symbol search, keyboard shortcuts, history navigation, unified diff printing and status letters would only add easy members.

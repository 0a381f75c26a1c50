# A verified model of the MariaDB client tools

The project models the parts of `mysql`, `mysqlbinlog`, `mysqldump` and `mysqlimport` in which state is carried from
one step to the next, and proves what those steps keep over whole inputs, whole event streams and all interleavings.

Verify it with `dafny verify dfyconfig.toml`.

## What is modelled

**The statement splitter of `mysql`.** `Scanner` is `add_line` as a function that only appends: accepted characters
go to `pending`, flushed text to `buffer`, everything the client does to `trace`. The server and the command
functions are a `Host`, an arbitrary function from the actions so far to a reply. `LineEditor.Client` is `add_line`
as the source runs it, one pass over a character array with a read offset and a write offset into the same line;
every method is proved equal to the scanner. `Reader` adds the line reader and the loop of `read_and_execute`,
`Commands` the command table and both `find_command` functions, `CommandArgument` both modes of `get_arg`.
`QuotedName`, `DelimiterBlock` and `DelimiterCommand` join the printer and the reader: what `mysqldump` prints is
followed through the client line by line, against a lexer that knows strings and comments only.

**The binary log replayer of `mysqlbinlog`.** `Binlog` is `process_event` as a step function over events with object
identities; `BinlogReplayer.Replayer` is the same code as an object whose fields are the program's globals.
There `file_names` is the array of the source, with cleared records, and `Loads` the load table it stands for.
`BinlogOwners`, `BinlogLeaks`, `BinlogLoads`, `BinlogRows`, `BinlogWindow`, `BinlogRemote` and `BinlogLocal` prove
their properties over every event stream. Deleting or using an object that is not live is recorded in `faults`.

**The dump of `mysqldump`.** `DumpProtocol` is the order of locks, log flush, snapshot, position, reads and purge in
`main`, interleaved with commits and log rotations of other clients. `Packing` is the loop that packs rows into
extended INSERT statements. `LikePattern`, `FieldEscape`, `Cdata` and `QuotedName` are the quoting printers, each
against a reader of its output that is defined without them (`SqlLiteral`, `Like`, section 2.7 of XML 1.0, `Unquote`).

**The completion index.** `Completion` is the chained hash over all prefixes of all words against a plain list of
words; `CompletionWalk` is the resumable generator with its static cursors.

**The worker pool of `mysqlimport`.** `ImportPool` is `main`, `worker_thread`, `safe_exit` and the start of
`db_connect` as an interleaving transition system over two mutexes, a counter and a timed wait.

## Where the code differs from what it is meant to do

- `batch_readline` drops a carriage return before a newline outside binary mode, so an identifier that holds such a
  pair does not come back. `QuotedName.PrintedNameUnchangedIff` is the exact condition,
  `QuotedName.CarriageReturnIsLost` the input.
- `create_delimiter` says it adds semicolons until the string is unique; its loop steps the bound and not the length,
  so it returns two semicolons or does not return. `DelimiterBlock.CreateDelimiter` states which, for any number of
  turns of the loop.
- `get_arg` takes the escapes out of a quoted name too, so USE with a printed name selects another database when the
  name holds a backslash, and fails for an empty name: `QuotedName.UseRoundTrip` is an if-and-only-if.
- `completion_hash_exists` compares the key with the whole word that owns the bucket:
  `Completion.ExistsIsRightIff` says exactly when that is right, `Completion.ExistsMissesWord` gives an input.
- A Create event whose file id is opened again before it was executed is never deleted: `BinlogLeaks.LeakingRun` is
  a log, `BinlogLeaks.AllFreedIff` the exact rule over the processed events.
- The name printed in LOAD DATA is not the name of the file when it holds a backslash
  (`BinlogLoads.TemporaryNameIff`).
- A table id that is mapped to a second database within a statement stays dropped:
  `BinlogRows.RunPrintsRows` is the exact rule, `BinlogRows.RemappedRun` the input.
- A local and a remote dump of one log need not select the same events. `check_header` only installs the format event
  in base64 modes other than AUTO and ALWAYS, while the remote dump always processes it (`BinlogLocal.OffsetDiffers`).
  The server clears the in-use flag of the format event, so only the local dump refuses a log in use
  (`BinlogLocal.InUseDiffers`). With `--skip-annotate-row-events` the server leaves the Annotate events out, so later
  positions and counts are short by them (`BinlogLocal.AnnotateMoves`, `BinlogLocal.StopDiffers`,
  `BinlogLocal.CountDiffers`). `BinlogRemote.TrackedPosition` and `BinlogLocal.AgreesIff` are the exact conditions.
- `add_line` drops a backslash that ends a line outside strings, and the newline behind a line of a statement that
  reads as a DELIMITER command; `DelimiterBlock.BodyText` says which text is sent.
- A dump without `--single-transaction` and without the global read lock can read two states:
  `DumpProtocol.OneStateIsReadIff`.

## Model

| member | source | states |
|---|---|---|
| `CommandArgument.Check` | client/mysql.cc:4496-4549 | check-only mode says yes on exactly the lines from which the mutating mode takes an argument |
| `CommandArgument.Get` | client/mysql.cc:4496-4549 | the in-place mode leaves the argument, unescaped and terminated, at the offset it returns, and returns none exactly when the line has no argument |
| `CommandArgument.Squeeze` | client/mysql.cc:4529-4547 | shifting escapes out of the buffer leaves the text before it untouched and, behind that, the scanned argument with its terminator |
| `CommandArgument.ScanIsCollect` | client/mysql.cc:4529-4547 | scanning with an accumulator is the recursive reading of the argument |
| `Commands.NotACommand` | client/mysql.cc:2210-2273 | no line or statement that starts with a slash or a backtick is taken for a client command, in any mode |
| `LineEditor.HasPrefix` | strings/is_prefix.c:39-44 | the comparison on the half-edited buffer is the prefix test on the original line |
| `LineEditor.SkipTo` | client/mysql.cc:2350-2373 | the loop that removes parameters stops at the first occurrence of the mark, or at the end |
| `LineEditor.Client.constructor` | client/mysql.cc:1970-2010 | a new client is between statements, outside strings and comments |
| `LineEditor.Client.Backslash` | client/mysql.cc:2321-2384 | a backslash in place: kept pair, client command with its parameters removed, or unknown command, as in the append-only scanner |
| `LineEditor.Client.Delimiter` | client/mysql.cc:2385-2426 | a delimiter in place sends or runs exactly the statement of the append-only scanner and goes on behind it |
| `LineEditor.Client.LineComment` | client/mysql.cc:2427-2471 | a comment to the end of the line is dropped, kept, or sent alone, as in the append-only scanner |
| `LineEditor.Client.CommentMark` | client/mysql.cc:2472-2507 | opening and closing a block comment in place keeps the rest of the line intact |
| `LineEditor.Client.Plain` | client/mysql.cc:2508-2527 | an ordinary character, with the inserted space after a comment, never overwrites unread text |
| `LineEditor.Client.Step` | client/mysql.cc:2300-2528 | one turn of the loop moves the read offset on, keeps the write offset at or behind it, leaves unread text intact and equals one scanner step |
| `LineEditor.Client.Scan` | client/mysql.cc:2300-2528 | the whole in-place pass ends, for every delimiter, with the statements, the order and the carried state of the append-only scanner |
| `LineEditor.Client.AddLine` | client/mysql.cc:2276-2554 | `add_line` refines the scanner, line end and DELIMITER exception included; it says stop exactly when the host did |
| `Reader.LineCons` | client/readline.cc:57-79 | how a character in front of a text changes its first line and what follows it |
| `Reader.ResumeAtLineStart` | client/mysql.cc:2105-2124 | inside a statement, reading on is scanning the next line from its start |
| `Reader.TakeOne` | client/mysql.cc:2105-2124 | a command line is run, any other line goes through the in-place scanner |
| `Reader.ReadAndExecute` | client/mysql.cc:1986-2125 | reading any lines through the in-place scanner is reading through the append-only one the lines up to the first with an embedded NUL, without the byte order mark, until one stops the client |
| `QuotedName.UnquoteInvertsQuote` | client/mysqldump.c:1798-1815 | reading a quoted name back gives the name and the text behind it, for every name and quote |
| `QuotedName.QuoteName` | client/mysqldump.c:1770-1815 | quotes when forced or when a character needs it, otherwise leaves the name; the result fits twice the length plus two |
| `QuotedName.KeptIff` | client/readline.cc:57-79 | the line reader keeps a text whole if and only if binary mode is on or it holds no CR LF |
| `QuotedName.ReadThrough` | client/mysql.cc:2276-2554 | inside backticks the client goes through any text, over any number of lines, to the closing backtick |
| `QuotedName.QuotedNamePasses` | client/mysqldump.c:1798-1815 | a printed identifier, with delimiters, backslashes, comment openers, backticks and newlines in it, passes the client: nothing is cut, sent or run, the text is accepted, and the client ends outside strings |
| `QuotedName.PrintedNameUnchangedIff` | client/readline.cc:57-79 | the identifier is read back unchanged if and only if binary mode is on or it holds no CR LF |
| `QuotedName.CarriageReturnIsLost` | client/readline.cc:66-76 | CR LF comes back as LF outside binary mode |
| `QuotedName.UseRoundTrip` | client/mysql.cc:4496-4549 | USE with a printed name yields that name if and only if it is not empty and holds no backslash |
| `DelimiterBlock.NoPairIff` | client/mysqldump.c:2223-2244 | the string search for two semicolons fails exactly when no two semicolons are adjacent |
| `DelimiterBlock.CreateDelimiter` | client/mysqldump.c:2223-2244 | whatever it returns does not occur in the body; it returns two semicolons exactly when the body does not hold them, and otherwise still loops after any number of turns |
| `DelimiterBlock.StepFollows` | client/mysql.cc:2300-2528 | away from delimiters and commands, one scanner step is one step of a lexer that knows only strings, comments and the text they leave |
| `DelimiterBlock.FollowLine` | client/mysql.cc:2276-2554 | over a line the scanner is where the lexer is, with exactly the text of the lexer, and has done nothing else |
| `DelimiterBlock.BodyIsSent` | client/mysql.cc:2385-2426 | from inside a statement, the text that the client keeps of the lines up to the delimiter is sent as one statement, comments or not |
| `DelimiterBlock.CommentIsOneStatement` | client/mysql.cc:2385-2426 | a version comment and the delimiter, read between statements, are one statement with exactly that text |
| `DelimiterBlock.BlockIsOneStatement` | client/mysqldump.c:2386-2390 | the version comment printed for a body without the delimiter, that ends outside quotes and comments and has no backslash command, is split into exactly one statement, and the client goes on between statements |
| `DelimiterBlock.VerbatimText` | client/mysql.cc:2276-2554 | the text sent is the printed text when no line has a comment outside strings, loses a backslash at its end or reads as a DELIMITER command |
| `DelimiterCommand.NewDelimiter` | client/mysql.cc:4366-4392 | the delimiter is never empty, and a new one has no backslash and fits the fifteen characters kept |
| `DelimiterCommand.LinesHonest` | client/mysql.cc:2105-2124 | whatever is read, the modes of the client are those of the last reply that sets them |
| `DelimiterCommand.DelimiterLineIsRun` | client/mysql.cc:4366-4392 | whatever the delimiter is, the line DELIMITER d between statements runs the delimiter command alone, and from then on the delimiter is d |
| `DelimiterCommand.SomeHost` | client/mysql.cc:4366-4392 | a host that runs the delimiter command as the source does exists, for every client |
| `DelimiterCommand.CoveredHasNoPair` | client/mysqldump.c:1552-1592 | covering the definer clause with version comments puts no delimiter into a body that does not hold it |
| `DelimiterCommand.PrintBlock` | client/mysqldump.c:2338-2390 | the block is printed exactly for the bodies that do not hold the delimiter, and the covered body that is printed does not hold it either |
| `DelimiterCommand.SetIsVerbatim` | client/mysqldump.c:1411-1495 | the SET statements around the body are version comments that the client sends as printed, whatever its modes |
| `DelimiterCommand.CommentsAreRead` | client/mysqldump.c:2346-2405 | version comments in a row, each ended by the delimiter, are read as one statement each, in the modes that the replies so far left |
| `DelimiterCommand.BlockIsRead` | client/mysqldump.c:2338-2418 | the block with both its DELIMITER lines, any SET statements around the body and from any delimiter: DELIMITER, exactly one statement for each comment with the text kept of it, DELIMITER, and the client is between statements with the semicolon |
| `Completion.MatchesMember` | client/completion_hash.cc:158-171 | the reference list holds exactly the words with the prefix |
| `Completion.MatchesCount` | client/completion_hash.cc:173-202 | a longer prefix keeps all matches exactly when it keeps as many |
| `Completion.HashPjw` | client/completion_hash.cc:28-40 | the loop over 32-bit words computes the hash of the prefix |
| `Completion.CompletionHash.constructor` | client/completion_hash.cc:42-57 | a new table represents no words |
| `Completion.CompletionHash.Find` | client/completion_hash.cc:113-133 | finds the bucket of a key exactly when the key was filed |
| `Completion.CompletionHash.Update` | client/completion_hash.cc:60-111 | files a word in front under one prefix and changes no other prefix; length zero fails |
| `Completion.CompletionHash.AddWord` | client/completion_hash.cc:219-225 | afterwards the table represents the words with the new one first, for every prefix |
| `Completion.CompletionHash.FindAllMatches` | client/completion_hash.cc:158-171 | any non-empty query gives exactly the added words with that prefix, with multiplicity, newest first, and their number |
| `Completion.CompletionHash.FindLongestMatch` | client/completion_hash.cc:173-202 | the length of the longest common prefix of all words that start with the query, found by comparing counts only |
| `Completion.OneMore` | client/completion_hash.cc:173-202 | a smaller count is exactly a next character that is not common |
| `Completion.Longest` | client/completion_hash.cc:173-202 | a common prefix that one word cannot lengthen is the longest |
| `Completion.CompletionHash.Exists` | client/completion_hash.cc:136-156 | true exactly when the oldest word with the key as prefix is the key |
| `Completion.ExistsIsRightIff` | client/completion_hash.cc:136-156 | the answer agrees with the list of words if and only if the key was not added after a longer word that was first with its prefix and is not an added empty word |
| `Completion.ExistsMissesWord` | client/completion_hash.cc:136-156 | "ab" and then "a": the test denies "a" |
| `CompletionWalk.AllReported` | client/mysql.cc:2741-2786 | the entries as long as their bucket's key are, as a multiset, all additions of non-empty words |
| `CompletionWalk.Generator.Walk` | client/mysql.cc:2754-2783 | one call for the empty text reports the next entry and leaves the cursor on what is to come |
| `CompletionWalk.Generator.Next` | client/mysql.cc:2711-2787 | each call reports the first completion due and leaves the others due, also when an earlier walk was abandoned |
| `CompletionWalk.Completions` | client/mysql.cc:2711-2787 | the calls up to the first NullS give the matches of a text, newest first, or for the empty text every addition once |
| `BinlogReplayer.Replayer.CreateUniqueFile` | client/mysqlbinlog.cc:269-281 | the first free version of the name, up to the limit |
| `BinlogReplayer.Replayer.SetDynamic` | mysys/array.c:196-209 | growing the array of records by cleared ones up to the index changes no other file id |
| `BinlogReplayer.Replayer.ProcessFirstEvent` | client/mysqlbinlog.cc:510-576 | a Begin or Create event gets a new file with its block and its record in the array, and the load table that the array stands for changes at its id only |
| `BinlogReplayer.Replayer.Append` | client/mysqlbinlog.cc:638-676 | on the array: a block is added to the file of the record, and an id behind the array or with a cleared record is ignored, as for the abstract load table |
| `BinlogReplayer.Replayer.GrabEvent` | client/mysqlbinlog.cc:336-347 | on the array: clearing the record takes exactly the Create event of the id out of the load table |
| `BinlogReplayer.Replayer.GrabFname` | client/mysqlbinlog.cc:364-378 | on the array: clearing a record without an event takes exactly the file name of a Begin event out of the load table |
| `BinlogReplayer.Replayer.DumpEvents` | client/mysqlbinlog.cc:2594-2620 | the loop over a log, with the array of records, refines the run over the abstract load table, on every state and stream |
| `BinlogReplayer.Replayer.DestroyLoads` | client/mysqlbinlog.cc:304-319 | the loop over the array deletes exactly the events the load table holds; a shared one would be deleted twice |
| `BinlogReplayer.Replayer.EndProgram` | client/mysqlbinlog.cc:2815-2820 | description, Annotate event and load table are freed as the abstract program end says |
| `BinlogOwners.StepTidy` | client/mysqlbinlog.cc:941-1291 | after each event, every live object has exactly one owner or was pushed out by this or an earlier event; nothing is deleted twice or used after deletion |
| `BinlogOwners.RunTidy` | client/mysqlbinlog.cc:941-1291 | so over every event stream |
| `BinlogOwners.EndFrees` | client/mysqlbinlog.cc:1556-1570 | at program end exactly the objects without an owner are left |
| `BinlogOwners.ProgramFreesAllButPushedOut` | client/mysqlbinlog.cc:2778-2820 | over all logs: no fault, and the objects left are exactly the Create events that a reused file id pushed out |
| `BinlogOwners.NothingPushedOut` | client/mysqlbinlog.cc:304-347 | when file ids are not reused that set is empty |
| `BinlogLeaks.PushedOutIff` | client/mysqlbinlog.cc:510-576 | an event is pushed out exactly when an id with an unexecuted Create event is opened again and a file could be made |
| `BinlogLeaks.RunLeaksIff` | client/mysqlbinlog.cc:941-1291 | a run leaves an object behind if and only if the processed events open an id again before its Create event was executed |
| `BinlogLeaks.AllFreedIff` | client/mysqlbinlog.cc:2778-2820 | the whole program frees every object if and only if no processed Begin or Create event does so |
| `BinlogLeaks.SecondCreateLeaks` | client/mysqlbinlog.cc:510-576 | two Create events on one id leave the first one behind |
| `BinlogLeaks.LeakingRun` | client/mysqlbinlog.cc:2778-2820 | a log on which the first Create event is still allocated at program end |
| `BinlogLoads.RunKeepsPromises` | client/mysqlbinlog.cc:510-676 | over every interleaving of load events, the printed LOAD DATA statements are those due, in order, and at the end each file holds exactly its first block and the blocks appended before its Execute event |
| `BinlogLoads.LogsKeepPromises` | client/mysqlbinlog.cc:1035-1196 | the same over all logs of the program; later events never touch the file |
| `BinlogLoads.RunSettles` | client/mysqlbinlog.cc:269-378 | a file whose record was taken is never written or named again |
| `BinlogLoads.PrintedNameIff` | client/mysqlbinlog.cc:696-704 | the printed name is the file's name if and only if it holds no backslash |
| `BinlogLoads.TemporaryNameIff` | client/mysqlbinlog.cc:269-281 | for a temporary file, if and only if directory and base name hold no backslash |
| `BinlogRows.RunIsFold` | client/mysqlbinlog.cc:1000-1268 | a run changes the kept Annotate event, the ignored maps and what is printed of row events by the processed events and by nothing else |
| `BinlogRows.RunPrintsRows` | client/mysqlbinlog.cc:859-918 | the row events in the output of a run are, in order, exactly the processed ones whose table has no dropped map in their statement |
| `BinlogRows.RunPrintsOwnRows` | client/mysqlbinlog.cc:859-918 | when each row event follows its map in the statement, they are exactly those whose map belongs to the database |
| `BinlogRows.RemappedRowsAreLost` | client/mysqlbinlog.cc:1210-1218 | a run over a map of another database, a map of this one under the same table id and a row event prints no row event |
| `BinlogRows.RemappedRun` | client/mysqlbinlog.cc:1210-1218 | such a run |
| `BinlogRows.RunPrintsAnnotates` | client/mysqlbinlog.cc:161-217 | the Annotate events in the output of a run are, in order and each once, exactly the processed ones that a shown map follows before the next Annotate event and the end of the statement |
| `BinlogRows.ProgramPrintsRows` | client/mysqlbinlog.cc:2778-2788 | the row events printed over all logs; ignored maps end with their log |
| `BinlogRows.ProgramPrintsAnnotates` | client/mysqlbinlog.cc:2778-2788 | the Annotate events printed over all logs follow the rule of one stream |
| `BinlogWindow.SeenIsRange` | client/mysqlbinlog.cc:956-987 | the processed events are exactly the range: format events, and from the first event that meets both start bounds the events that survive the server filter, up to the first of these that reaches a stop bound, where the run stops |
| `BinlogRemote.DumpRemote` | client/mysqlbinlog.cc:2277-2311 | the remote loop is a run over the tracked events |
| `BinlogRemote.RealEventsAreLocated` | client/mysqlbinlog.cc:2010-2056 | the tracked position of every event of a stream is the sum of the sizes in front of it |
| `BinlogRemote.RemoteIsLocal` | client/mysqlbinlog.cc:2215-2314 | the tracked events of one log are those the server sends of it, one behind the other from the start position on, behind its format event when reading starts later |
| `BinlogRemote.TrackedPosition` | sql/sql_repl.cc:1876-1883 | the tracked position of an event is its byte offset less the sizes of the Annotate events left out in front of it, and is the byte offset if and only if none was left out |
| `BinlogLocal.ReadHeader` | client/mysqlbinlog.cc:2394-2499 | the loop of `check_header` processes or installs the format event in front of the start position and nothing else |
| `BinlogLocal.CheckHeaderIs` | client/mysqlbinlog.cc:2343-2502 | for a real log it does so exactly once, and not at all when reading starts at the front |
| `BinlogLocal.DumpLocal` | client/mysqlbinlog.cc:2518-2640 | the local dump is the header and a run over the events from the start position on |
| `BinlogLocal.NoneSeen` | client/mysqlbinlog.cc:956-987 | where the bounds leave no room for it, no event of any log is selected |
| `BinlogLocal.StreamTracked` | sql/sql_repl.cc:2311-2330 | from any start position the remote dump processes the format event, with the in-use flag cleared, and behind it what is sent of the log |
| `BinlogLocal.AgreeIs` | client/mysqlbinlog.cc:2277-2311 | local and remote dump agree on a log if and only if they select the same behind the format event |
| `BinlogLocal.ThinnedSeen` | client/mysqlbinlog.cc:956-987 | two streams that differ by Annotate events which are not shown, on which no bound of the options falls, and by the positions, select the same other events |
| `BinlogLocal.RemoteSelectsLocal` | client/mysqlbinlog.cc:2277-2311 | the two dumps select the same of a log's own events when neither can select anything, or when both get past the format event alike and nothing of the log is left out, or no bound of the options falls on what is |
| `BinlogLocal.AgreesIff` | client/mysqlbinlog.cc:2460-2478 | on the logs of which nothing is left out they always agree if and only if both get past the format event alike or neither can select anything; with --skip-annotate-row-events they agree on every log if and only if neither can: conditions on the options and the format event |
| `BinlogLocal.InUseDiffers` | client/mysqlbinlog.cc:1150-1157 | from the front and from a later start, a log in use: the local dump ends at the format event, the remote dump selects the event behind it |
| `BinlogLocal.AnnotateMoves` | client/mysqlbinlog.cc:2247-2248 | a log in which an event at byte 164 is tracked at 104 |
| `BinlogLocal.StopDiffers` | client/mysqlbinlog.cc:2247-2248 | on that log a stop position between the two ends the local dump in front of the event and not the remote one |
| `BinlogLocal.CountDiffers` | client/mysqlbinlog.cc:2247-2248 | on that log with an offset of two the local dump selects the event and the remote one does not |
| `BinlogLocal.OffsetDiffers` | client/mysqlbinlog.cc:2460-2478 | with an offset of one the remote dump selects an event that the local one does not |
| `DumpProtocol.NormalizeIsCoherent` | client/mysqldump.c:1014-1037 | every accepted combination of options is coherent: a position needs one of the two locks, a purge needs a position, table locks go with neither |
| `DumpProtocol.AdvanceKeeps` | client/mysqldump.c:6038-6147 | every step of `main` keeps the protocol invariant |
| `DumpProtocol.RunKeeps` | client/mysqldump.c:6038-6147 | so in every interleaving with other clients |
| `DumpProtocol.DatabasesAreQuiet` | client/mysqldump.c:4565-4702 | no statement of the table dump ends the transaction or touches locks and logs |
| `DumpProtocol.MasterDataIsExact` | client/mysqldump.c:5084-5164 | in every interleaving, all reads of a dump with a position see exactly the commits before that position, the snapshot stays open, and the purge never removes the named log file |
| `DumpProtocol.OneStateIsReadIff` | client/mysqldump.c:1014-1037 | all reads see one state, over every choice of databases and every interleaving, if and only if the dump has a snapshot or the global read lock |
| `DumpProtocol.TwoStatesAreRead` | client/mysqldump.c:4565-4702 | otherwise a commit between two databases is seen in one of them only |
| `Packing.TextIsShorter` | client/mysqldump.c:4018-4052 | the text of a statement is shorter than the length booked for it, by the number of rows and three |
| `Packing.FirstIsLongest` | client/mysqldump.c:4018-4052 | no other grouping gets more rows into the first statement |
| `Packing.FullIsBest` | client/mysqldump.c:4018-4052 | such a grouping keeps multi-row statements below the buffer length and has the fewest statements |
| `Packing.FullIsLeast` | client/mysqldump.c:4018-4052 | a grouping in which no statement could take the next row has the fewest statements |
| `Packing.DumpRows` | client/mysqldump.c:3811-4052 | whole statements with every row once and in order, multi-row ones shorter than the buffer length, and no grouping under the same bound with fewer statements |
| `LikePattern.BodyDecodes` | client/mysqldump.c:1818-1859 | the SQL parser turns the quoted name into a pattern without active wildcards |
| `LikePattern.PatternMatchesName` | client/mysqldump.c:1818-1859 | that pattern matches the name and no other string |
| `LikePattern.QuoteForLike` | client/mysqldump.c:1840-1859 | the result is a complete literal that, as a LIKE pattern, matches the name and nothing else |
| `FieldEscape.BodyDecodes` | client/mysqldump.c:3544-3572 | the escaped body is a complete literal and denotes what the user wrote |
| `FieldEscape.BodyIsShort` | client/mysqlimport.c:568-589 | at most twice the length |
| `FieldEscape.AppendEscaped` | client/mysqldump.c:3544-3572 | the appending version writes that body between quotes |
| `FieldEscape.EscapeInto` | client/mysqlimport.c:568-589 | the pointer version writes the same body in place and nothing else |
| `FieldEscape.AddLoadOption` | client/mysqlimport.c:542-559 | a hexadecimal constant is added as it is, anything else as the literal, and nothing around it changes |
| `Cdata.NoClose` | client/mysqldump.c:2042-2065 | no section end arises where the loop copies a character |
| `Cdata.PrintXmlCdata` | client/mysqldump.c:2042-2065 | reading the sections by section 2.7 of XML 1.0 and joining them gives the string between its two newlines, for every string |
| `ImportPool.RunKeeps` | client/mysqlimport.c:593-718 | the pool invariant in every interleaving, with failed creations, timed waits and process exits |
| `ImportPool.CounterIsExact` | client/mysqlimport.c:678-702 | in every reachable state the counter is the number of workers not signed off plus a creation in progress, and within the limit |
| `ImportPool.DestroyedMutexesAreUnused` | client/mysqlimport.c:704-718 | once the mutexes are about to be destroyed every worker has ended, none is held, and every table had its worker or its failed creation |
| `ImportPool.SomeStepComesNearer` | client/mysqlimport.c:593-718 | in every reachable state of a running process some thread can take a step that leads nearer to the end |
| `ImportPool.CanAlwaysFinish` | client/mysqlimport.c:593-718 | with at least one thread allowed, every run can be continued until the program or the process ends |
| `ImportPool.NoThreadNoProgress` | client/mysqlimport.c:678-689 | with none, no worker is ever started |

## Left out

- Multi-byte characters and collations: one character is one byte, and command names fold ASCII case only.
- Query execution, connections, TLS and the server, beyond what `DumpProtocol.Execute` assumes: the global read lock
  stops commits, a snapshot sees the commits before it, UNLOCK TABLES ends a transaction only when tables are locked.
- Non-transactional tables, purges and DDL by other clients, and `--slave-data` positions.
- The statement left over at the end of a batch, history, prompt, pager, tee and all table printing.
- `mysql` lines that the reader breaks because they exceed its buffer.
- Reader.ReadAndExecute: does not model lines with an embedded NUL in binary mode, where the scanner works on bytes
  behind the terminator.
- The `GET_NEXT` mode of `get_arg` and the bodies of the command functions other than DELIMITER, which are replies of
  the host.
- DelimiterBlock.BlockIsOneStatement: for a client without `--named-commands`, which would run a line of the body that
  reads as a command.
- DelimiterCommand.BlockIsRead: leaves out the ALTER DATABASE statements that `switch_db_collation` prints, which are not
  version comments, and the search for the definer clause: any place of it is covered.
- DelimiterBlock.CreateDelimiter: takes a number of turns, because the loop of the source need not end, and does not
  model the overflow of its bound, which is undefined in C.
- BinlogRows.RunPrintsRows: does not model `--base64-output=never`, which ends the run with an error at the first shown
  table map or row event, unless `--short-form` is given (client/mysqlbinlog.cc:838-852).
- Start_encryption events, which are never sent (sql/sql_repl.cc:2680), and reading an encrypted log locally; heartbeats
  and `--stop-never` in the remote dump.
- QuotedName.QuotedNamePasses: for a name that is a C string and a line without NUL; outside binary mode the client stops
  at a line with one (client/mysql.cc:2004).
- Decoding and printing of events, raw mode, base64 printing, logs before version 4 in `check_header`, LOAD files of
  logs before version 3 and output errors in mysqlbinlog; an event is what its type decides.
- The hash and free list of the ignored-map container (sql/rpl_tblmap.cc), which is a map here.
- Integer widths of lengths and positions, and memory that runs out.
- Normalisation of line ends by an XML parser (section 2.11 of XML 1.0) and characters that XML does not allow.
- The SQL mode NO_BACKSLASH_ESCAPES in `SqlLiteral`.
- Fairness of the import pool: that a run can always be finished is proved, not that the scheduler does so.
- mysqladmin, mysqlshow, mysqlcheck, mysql_plugin, mysql_upgrade: command dispatch and query plumbing, only easy members.

# Verified models of the collector's stateful cores

These Dafny files model eight parts of the KloudDB shield collector and main server and prove what
each of them promises. Every part is a loop, a protocol or an index whose correctness is not visible
in any single function body:

| file | part |
|---|---|
| `Calendar.dfy`, `BackupHistory.dfy` | the backup gap finder, over the Gregorian calendar and the ISO weeks of section 2.2.10 of ISO 8601:2004 |
| `WsHub.dfy` | the WebSocket hub: one loop, many clients, bounded buffers, eviction of slow clients |
| `PasswordScan.dfy` | the credential pipeline: readers, a distributor, per-user workers with batches of goroutines, a tracker, and termination by an in-band marker |
| `HbaRules.dfy`, `Text.dfy` | the pg_hba.conf rule index over shared line objects, and the parser that feeds it |
| `LogPrefixRegex.dfy`, `LogPrefixShapes.dfy`, `LogPrefixParser.dfy` | the compiler from log_line_prefix to a regular expression, what the expression accepts, and the getters that read its capture groups by number |
| `RetryQueue.dfy` | the queue of failed posts, with the auth latch and the client's `send` |
| `CollectorSchedules.dfy`, `ScheduledChecks.dfy`, `CronReconcile.dfy`, `CronGuard.dfy` | cron scheduling: from configuration to schedule map, from commands to checks, from the map to live entries, and the one-token guard around a run |
| `RdsSubscriptions.dfy` | the RDS event subscription check |

`Common.dfy` holds shared datatypes and facts about sequences, and sorting by a key.

Objects that the source updates in place are classes; loops that update variables are methods with loops, proved
against specification functions whose meaning is then proved by lemmas. Concurrent parts are state machines whose
steps are single channel operations, critical sections or ends of calls, so that a theorem over all runs covers all
interleavings. Where iteration order is Go's map order, the order is arbitrary. Clocks, network answers, files, the
net and cron libraries and the matching of a line by a whole regular expression are parameters of which nothing is
assumed; what the parts of the generated expression accept is proved in `LogPrefixShapes.dfy`.

## Where the code does not do what it is for

These are theorems too, each with the exact condition under which the code is right.

- The monthly gap search is right if and only if every month it steps into has the day of the month it steps from
  (`GapsExact`). Otherwise it skips a month, or never stops: it runs for ever if and only if some step leads to a
  backup whose month is the first one too short (`ScanDiverges`). `EndOfJanuary` gives both: 31 January to 10 February
  2023 never stops, 31 January to 10 March does not report February. Daily and weekly searches, and monthly ones up to
  the 28th, are always right (`EarlyDaysFit`).
- The credential pipeline tests every line for every user if and only if no line equals the exit marker
  (`FinalReport`); with such a line it still ends (`EveryRunEnds`), with too small a total.
- A percent sign takes the backslash that quotes the next character, so a prefix can open groups of its own. The level
  and description of a log line are read from their groups if and only if no known placeholder occurs twice in the
  prefix and no such parenthesis captures (`CompilerGroups`, `GettersReadTheirGroups`); `%(%)` is the input for the
  second condition (`UnquotedGroup`). Parentheses balance if and only if none of the unquoted ones is closed unopened
  and they leave open nothing but the one parenthesis of a `%q`: without unquoted ones, if and only if `%q` occurs at
  most once (`BalanceWithoutUnquoted`), and `%(` is another failing input (`UnquotedParenthesis`). All this is for
  prefixes whose percent signs are not followed by a backslash or an opening bracket. The compiler panics if and only
  if a percent sign is left over at the end (`PanicExact`). A comment in the source promises the mapping of `%a`
  followed by a space or comma, which the code does not have; the code is what is modelled.
- The unused-line report goes by line numbers, and rows of pg_hba_file_rules can share one: a number is reported if
  and only if none of its lines was matched (`GetUnusedLines`), so a matched rule hides an unused one
  (`SharedNumberHides`).
- A flush that ends in an auth error keeps the books if and only if every item before it was not due or failed and is
  to be tried again (`AuthErrorExact`); `DeliveredYetQueued` is two items that break it. It writes no attempts back
  either, so the posts of such flushes come on top of the five for each enqueue (`RepostsCounted`), without bound
  (`AuthErrorsForgetAttempts`).
- What is enqueued while a flush is under way is lost. The ledger shows it if and only if the posts enqueued meanwhile
  are not, as a multiset, those evicted meanwhile (`WriteBackExact`); `LossHidden` is a loss that it does not show.
  Flushes that overlap settle posts twice (`DeliveredTwice`); `OverlapExact` is the exact balance then.
- Splitting `all` over separate schedules runs the same checks for a target if and only if both schedules parse, the
  log files match and the PII configuration, where there is a shield, is built (`SplitAllExact`): when the main
  schedule, the files or the PII configuration fail, the single command runs nothing, while the split commands still
  run the core checks. It also adds schedules that the scheduler can refuse, and then nothing at all runs
  (`SplitRunsAgree`).
- One panicking run ends a cron entry: the token is gone and every later firing is skipped (`PanicIsForever`). The
  comment on SkipIfStillRunning promises to skip only while a run is in progress; `SkipExact` says when the code
  skips.
- A signature does not see everything: an entry is not replaced when only the user, the password or the connection
  settings of a target change (`SignatureIgnoresPassword`), so it goes on with the old password (`OldPasswordStays`);
  nor when only MySQL servers (`SignatureIgnoresMysql`) or the schedule inside the log parser section do. It sees
  everything else if no text holds a separator that ends it (`SignatureExact`), and then a live entry has the wanted
  commands up to these (`ReconciledRunsWanted`); `SignaturesCollide` shows why the separators matter.
- The RDS check compares lengths where it means sets. `LengthsExact` says for every list when that is the same;
  `RepeatHidesGap` and `ForeignIdFails` are a wrong pass and a wrong failure.

## Model

| member | source | states |
|---|---|---|
| Calendar.AddDateMeaning | cmd/ciscollector/backuphistory.go:105-109 | adding days moves the day number; adding a month keeps the day of the month if the next month has it, and otherwise lands on the first three days of the month after |
| Calendar.DateUnique | cmd/ciscollector/backuphistory.go:68-76 | equal printed dates are equal days, so the loop guard compares days |
| Calendar.DateSuccessor | cmd/ciscollector/backuphistory.go:68-76 | day 0 prints as 1 January 1970, and the next day prints as the next date of the Gregorian calendar, month and year ends and leap years included |
| Calendar.YearUnique | cmd/ciscollector/backuphistory.go:72-75 | the year computed by cycles of 400, 100, 4 and 1 is the one whose days contain the day, by the leap-year rule |
| Calendar.MonthUnique | cmd/ciscollector/backuphistory.go:101-109 | a day's month is the only one whose days contain it |
| Calendar.IsoWeekUnique | cmd/ciscollector/backuphistory.go:82-95 | ISO year and week name one week |
| Calendar.IsoWeekSuccessor | cmd/ciscollector/backuphistory.go:89-95 | seven days on is the next ISO week, week 1 following week 52 or 53 |
| Calendar.IsoWeekOrder | cmd/ciscollector/backuphistory.go:82-95 | later weeks have later ISO names |
| Calendar.FourthOfJanuary | cmd/ciscollector/backuphistory.go:82-83 | the first-Thursday rule: 4 January is in week 1 of its year |
| Calendar.WeekPhase | cmd/ciscollector/backuphistory.go:82-95 | weeks have seven days, the one of 1 January 1970 runs from the Monday before to the Sunday after, and it is week 1 of 1970 |
| BackupHistory.SameLabelSamePeriod | cmd/ciscollector/backuphistory.go:68-76 | two backups print alike exactly when they are in the same day, week or month |
| BackupHistory.PeriodLabelUnique | cmd/ciscollector/backuphistory.go:117-122 | different periods print differently, so removing duplicate texts removes duplicate periods |
| BackupHistory.AdvanceMeaning | cmd/ciscollector/backuphistory.go:72-75 | one step of the inner loop is the next period, or skips one month that lacks the day |
| BackupHistory.ScanFits | cmd/ciscollector/backuphistory.go:66-112 | when every step fits, the scan ends and lists, ascending and once, exactly the periods strictly between first and last backup that hold none |
| BackupHistory.ScanMisses | cmd/ciscollector/backuphistory.go:99-112 | when a step does not fit, the scan does not end or some empty period is not listed |
| BackupHistory.GapsExact | cmd/ciscollector/backuphistory.go:66-122 | the scan is right if and only if every step fits |
| BackupHistory.EarlyDaysFit | cmd/ciscollector/backuphistory.go:66-112 | daily and weekly steps always fit, monthly ones when no backup is later than the 28th |
| BackupHistory.ScanDiverges | cmd/ciscollector/backuphistory.go:73-109 | the inner loop runs for ever if and only if some step leads to a backup whose month is the first one too short |
| BackupHistory.EndOfJanuary | cmd/ciscollector/backuphistory.go:105-109 | the two inputs that show the bound is needed |
| BackupHistory.NewestFirstMeaning | cmd/ciscollector/backuphistory.go:59-64 | sorting keeps the backups and puts them newest first |
| BackupHistory.CollectMissing | cmd/ciscollector/backuphistory.go:63-115 | the loops over the sorted history collect the labels of the scanned periods |
| BackupHistory.UniqueLabels | cmd/ciscollector/backuphistory.go:117-122 | the duplicate filter keeps every label once, at its first occurrence and in that order, and so leaves a list without repeats as it is |
| BackupHistory.DayOfMeaning | cmd/ciscollector/backuphistory.go:68-76 | an instant is on the day given by whole times 24 hours, of 60 minutes of 60 seconds |
| BackupHistory.ListsEmptyMeaning | cmd/ciscollector/backuphistory.go:66-122 | the list of empty days by date, of empty weeks by ISO week and of empty months by year and month is the list of empty periods |
| BackupHistory.Search | cmd/ciscollector/backuphistory.go:66-136 | each of the three branches: the right report if and only if every step fits, none if and only if some step is stuck |
| BackupHistory.SearchedEnds | cmd/ciscollector/backuphistory.go:66-98 | a search by days or weeks always ends with the right report |
| BackupHistory.Run | cmd/ciscollector/backuphistory.go:30-136 | each failure in the order it is checked; otherwise the report repeats the frequency and names the oldest and the newest day, and between them it lists for `daily` exactly the days and for `weekly` exactly the ISO weeks without a backup; for `monthly` it lists the months if and only if every step fits, and never comes if and only if some step is stuck; any other frequency fails |
| WsHub.Client.TrySend | cmd/main-server/ws_hub.go:68-70 | a message is buffered exactly when there is room, else nothing changes |
| WsHub.Hub.Register | cmd/main-server/ws_hub.go:50-54 | the client joins the clients, whose channels are all open |
| WsHub.Hub.Unregister | cmd/main-server/ws_hub.go:56-63 | a registered client leaves and its channel is closed, an evicted one is left alone |
| WsHub.Hub.Broadcast | cmd/main-server/ws_hub.go:65-76 | in any order, every client is offered the message once and exactly those with a full buffer are closed and dropped |
| WsHub.StepsBroadcast | cmd/main-server/ws_hub.go:65-76 | the state machine and the struct agree: receiving a message and visiting the clients in any order, with no pump in between, does to each client what Hub.Broadcast does, and to nobody else anything |
| WsHub.StepRegisters | cmd/main-server/ws_hub.go:50-54 | receiving a registration puts the client into the hub with an empty open channel and its pump running, to get messages from then on, and changes no other connection |
| WsHub.StepUnregisters | cmd/main-server/ws_hub.go:56-63 | receiving a removal takes the client out and closes its channel, leaves one that was evicted alone, and changes no other connection |
| WsHub.StepKeepsInv | cmd/main-server/ws_hub.go:46-109 | every step of hub, handlers, posters and pumps keeps the channel and delivery invariants |
| WsHub.RunKeepsInv | cmd/main-server/ws_hub.go:46-109 | every state of every run meets them |
| WsHub.HubDelivers | cmd/main-server/ws_hub.go:48-115 | what a client's pump took and what is buffered is one contiguous slice of the posted messages from registration to removal; at most 16 are buffered; closed at most once; no send on a closed channel |
| WsHub.RegisteredFrom | cmd/main-server/ws_hub.go:50-54 | on every run, what a client gets counts from the messages that the hub had received when it received the registration |
| WsHub.UnregisteredUntil | cmd/main-server/ws_hub.go:56-63 | on every run, from the removal on the client is out of the hub, its channel is closed and it gets nothing more |
| WsHub.ClientGets | cmd/main-server/ws_hub.go:48-76 | a client that is in the hub from its registration to its removal gets exactly the messages that the hub received in between, in order |
| WsHub.MemberGets | cmd/main-server/ws_hub.go:48-76 | and one that still is in the hub, outside a fan-out, all messages since its registration |
| WsHub.PostedExact | cmd/main-server/ws_hub.go:100-103 | the messages received and waiting are exactly those posted, in order |
| WsHub.HubServes | cmd/main-server/ws_hub.go:37-103 | posting waits exactly while thirty-two messages wait; outside a fan-out the hub takes registrations, removals and messages, during one it takes none |
| WsHub.HubDrains | cmd/main-server/ws_hub.go:48-78 | without new posts the hub gets through all waiting messages by its own steps |
| WsHub.PumpDrains | cmd/main-server/ws_hub.go:106-119 | a pump takes all that is buffered by its own steps |
| WsHub.Eviction | cmd/main-server/ws_hub.go:67-75 | a client is evicted by a broadcast only when the sixteen broadcasts before it all wait in its buffer, and never comes back |
| PasswordScan.StepKeepsReaders | passwordmanager/postgres.go:42-134 | every line is unread or was sent once, and the exit signal follows all lines |
| PasswordScan.StepKeepsMain | passwordmanager/postgres.go:278-306 | the first exit signal ends the distribution |
| PasswordScan.StepKeepsWorkers | passwordmanager/postgres.go:192-270 | each user's worker gets exactly the forwarded lines, and each line it took is tested, under way or in hand |
| PasswordScan.StepKeepsReports | passwordmanager/postgres.go:308-325 | the final report is last and sent only when all users are finished |
| PasswordScan.RunKeepsInv | passwordmanager/postgres.go:174-325 | all of this in every state of every run |
| PasswordScan.StatusTracker | passwordmanager/postgres.go:138-163 | the tracker stops at the first final report, with total = success + failure = the reports before it, and the successful combinations in order |
| PasswordScan.TotalsByUser | passwordmanager/postgres.go:142-159 | the total is the sum of the users' tests |
| PasswordScan.ReceivedAll | passwordmanager/postgres.go:104-131 | the lines received before the exit signal are all lines, as often as the files hold them, if and only if no line equals it |
| PasswordScan.ReturnedTests | passwordmanager/postgres.go:192-325 | after the return every user was tested with exactly the lines received before the exit signal |
| PasswordScan.FinalReport | passwordmanager/postgres.go:104-325 | every report precedes the final one; the total is users x lines, and every user was tested with every line, if and only if no line equals the exit signal |
| PasswordScan.PrintedReport | passwordmanager/postgres.go:138-163 | what the tracker prints when the scan has returned: total = success + failure, which is users x lines if and only if no line equals the exit signal or there are no users, and all successful combinations |
| PasswordScan.PrintedOutcomes | passwordmanager/postgres.go:138-270 | when authentications answer by a table and no line equals the exit signal: success counts the pairs of a user and a line that the table accepts, failure the others, and the printed combinations are those pairs, as often as the files hold the line |
| PasswordScan.InFlightBound | passwordmanager/postgres.go:184-268 | at most GoroutinesPerUser authentications of a user are under way, one when that is below two |
| PasswordScan.BatchGrows | passwordmanager/postgres.go:192-247 | and the bound is reached: a worker below it takes the next line and starts one more authentication while the others go on |
| PasswordScan.SendsWait | passwordmanager/postgres.go:174-230 | sends wait exactly while a channel holds a million entries |
| PasswordScan.Progress | passwordmanager/postgres.go:174-325 | no reachable state short of the return is stuck |
| PasswordScan.StepWorks | passwordmanager/postgres.go:174-325 | every step does some of a finite amount of work |
| PasswordScan.EveryRunEnds | passwordmanager/postgres.go:174-325 | every uncancelled run is finite, and one that cannot go on has returned |
| HbaRules.FirstIsLowest | pkg/hbarules/hba_file_rule.go:73-83 | on rules in line order, the lowest-numbered accepting rule is the first one |
| HbaRules.AddressMeaning | pkg/hbarules/hba_helpers.go:157-192 | the written address says which addresses match: `all` those in 0.0.0.0/0 and `localhost` those in 127.0.0.1/32, whatever the mask; an address with a mask those in the net of the two; a text of the form of a subnet those in it; any other text those that contain it. The rule is refused exactly when the library refuses that net |
| HbaRules.AcceptsMeaning | pkg/hbarules/hba_helpers.go:157-206 | a rule accepts an entry exactly when its written address matches, its database list has the database, all, or sameuser or samerole where database and user are equal, and its user list has the user or all |
| HbaRules.AllRuleAccepts | pkg/hbarules/hba_helpers.go:17-20 | a rule with all three fields `all` accepts what 0.0.0.0/0 contains |
| HbaRules.AllRuleUsed | pkg/hbarules/hba_file_rule.go:50-115 | if that is every address and no rule is before it, such a rule is reported as unused exactly when there are no entries |
| HbaRules.HbaFileRule.Add | pkg/hbarules/hba_file_rule.go:38-48 | one cell grows by the line, all others stay |
| HbaRules.HbaFileRule.AddRule | pkg/hbarules/hba_helpers.go:194-205 | a rule's one line object is in exactly the cells the rule names |
| HbaRules.HbaFileRule.Collect | pkg/hbarules/hba_file_rule.go:51-71 | the lines of the cells an entry can reach, in order |
| HbaRules.NamesListed | pkg/hbarules/hba_helpers.go:196-203 | a rule names a database and a user exactly when both stand between commas in its lists |
| HbaRules.CollectedMatch | pkg/hbarules/hba_file_rule.go:50-71 | these are exactly the lines of rules whose database and user match: equal, all, or sameuser and samerole with database = user |
| HbaRules.HbaFileRule.ValidateEntry | pkg/hbarules/hba_file_rule.go:50-84 | adds one to exactly one rule that accepts the entry and has the lowest number of those, however lines of equal number are sorted, and changes nothing if there is none |
| HbaRules.HbaFileRule.UsedByNumber | pkg/hbarules/hba_file_rule.go:87-95 | exactly the numbers of lines in some cell, each with whether one of the lines that have it was matched |
| HbaRules.HbaFileRule.GetUnusedLines | pkg/hbarules/hba_file_rule.go:86-115 | strictly ascending, exactly the indexed numbers none of whose lines was matched, each with the text of the last rule that has it |
| HbaRules.ScanHBAFile | pkg/hbarules/hba_helpers.go:23-61 | exactly the lines that are rules and parse, in strictly ascending order of their line numbers |
| HbaRules.NoRuleMeaning | pkg/hbarules/hba_helpers.go:38-46 | a line is no rule exactly when it is blank, a comment or begins with local, spaces aside |
| HbaRules.ParseHBAFileRules | pkg/hbarules/hba_helpers.go:157-209 | for rules in any order and with any numbers, fails exactly when some address cannot be parsed, else indexes exactly the rules with an address, all counts zero |
| HbaRules.IndexReadsLinearly | pkg/hbarules/hba_helpers.go:162-206 | on a file's rules, the rule the index counts is the one a linear reading of the whole list selects |
| HbaRules.HbaUnusedLineParser.Feed | pkg/parselog/parse.go:115-179 | after any run of log entries the counts are those of the entries read off so far: over the lines of each number, the entries whose lowest match that number is |
| HbaRules.HbaUnusedLineParser.GetUnusedLines | pkg/parselog/parse.go:181-183 | strictly ascending, exactly the indexed numbers that were the lowest match of no entry, each with the text of the last rule that has it |
| HbaRules.DistinctTally | pkg/parselog/parse.go:174-176 | where numbers are distinct, the count of each rule is the number of entries whose lowest match it is |
| HbaRules.TextsMeaning | pkg/hbarules/hba_helpers.go:192 | the text kept for a number is that of the last rule that has it |
| HbaRules.SharedNumberHides | pkg/hbarules/hba_file_rule.go:86-95 | rules that share a line number hide each other: one that matched nothing is not reported when another one has matched |
| HbaRules.NoHits | pkg/parselog/parse.go:174-176 | the count of a number is zero exactly when no entry had it as its lowest match |
| HbaRules.OrderIrrelevant | pkg/parselog/parse.go:174-183 | the report depends only on the set of entries, whatever the order or interleaving of the feeds |
| HbaRules.CoveredRuleReported | pkg/hbarules/hba_file_rule.go:50-115 | a number whose rules are all covered by lower-numbered ones is reported whatever is fed |
| LogPrefixRegex.GenerateRegexString | pkg/parselog/dynamic_parser.go:40-108 | the loop emits the pieces of the quoted prefix and numbers their groups; no result where it would index past the end |
| LogPrefixRegex.PanicExact | pkg/parselog/dynamic_parser.go:72-97 | the compiler indexes past the end of the prefix if and only if, reading from the left, the last character is a percent sign that no other one takes (so `%%` is fine) |
| LogPrefixRegex.FragmentScan | pkg/parselog/dynamic_parser.go:21-37 | every placeholder's expression is one balanced capture group opened by its first character |
| LogPrefixShapes.FragmentText | pkg/parselog/dynamic_parser.go:21-59 | the expression emitted for a placeholder is one group around the text of its shape, a list of character classes with how often they occur; the groups of %h, %r, %v and %c can be left out as a whole |
| LogPrefixShapes.PlaceholderMeaning | pkg/parselog/dynamic_parser.go:21-59 | what each shape accepts: numbers for %p, %l and %x; texts without white space for %u, %d, %a and, not empty, %h; five letters, digits or underscores for %e, such characters and spaces for %b; number/number for %v, name.name for %c, host(port) for %r; date, time and zone for %t and %s, with a fraction of the second for %m |
| LogPrefixShapes.LiteralText | pkg/parselog/dynamic_parser.go:62 | a character that stands for itself is quoted exactly when it has a meaning of its own in an expression |
| LogPrefixShapes.PrefixText | pkg/parselog/dynamic_parser.go:62-97 | for every prefix whose percent signs are followed by characters that need no quoting, %q aside, the emitted text is that of its parts in order |
| LogPrefixShapes.PrefixMeaning | pkg/parselog/dynamic_parser.go:62-97 | the parts of such a prefix accept exactly the prefix itself with a text of the right kind in the place of each known placeholder and nothing in that of an unknown one (so nothing for `%%`) |
| LogPrefixShapes.CompiledText | pkg/parselog/dynamic_parser.go:99-104 | the whole expression for such a prefix: its parts between optional spaces, one of the seventeen levels with a colon, white space and the content |
| LogPrefixShapes.CompiledOptional | pkg/parselog/dynamic_parser.go:78-101 | with %q in it, what follows %q is one part that can be left out |
| LogPrefixRegex.PrefixScan | pkg/parselog/dynamic_parser.go:72-97 | for every prefix whose percent signs are followed by characters that begin no escape and no class, scanning what it emits opens one group per placeholder and one per unquoted parenthesis that captures, leaves open what %q and the unquoted parentheses leave open, and ends outside escapes and classes |
| LogPrefixRegex.LevelGroups | pkg/parselog/dynamic_parser.go:99-107 | for the same prefixes, with n placeholders and unquoted captures the level is group n+3, the content n+4 and the last; parentheses balance if and only if none of the unquoted ones is closed unopened and they leave open nothing but the one parenthesis of a %q |
| LogPrefixRegex.PlaceholderGroup | pkg/parselog/dynamic_parser.go:91-94 | each placeholder's expression stands at one place as the group that counts the placeholders and the unquoted captures before it from 2 |
| LogPrefixParser.PiecesOfLetters | pkg/parselog/dynamic_parser.go:72-97 | for every prefix that compiles, the emitted placeholders are exactly the known letters of the prefix, with multiplicity |
| LogPrefixParser.IndexesSize | pkg/parselog/dynamic_parser.go:91-93 | the index map is as large as the number of placeholders if and only if none repeats, and never larger |
| LogPrefixParser.IndexesOccur | pkg/parselog/dynamic_parser.go:91-93 | every index is 2 plus the number of placeholders before an occurrence of its placeholder |
| LogPrefixParser.OwnGroupOnly | pkg/parselog/dynamic_parser.go:91-94 | a group number that one placeholder opens is opened by no other placeholder: two placeholders with the same expression text are told apart |
| LogPrefixParser.IndexOfLast | pkg/parselog/dynamic_parser.go:91-93 | an index is the group that the last occurrence of its placeholder opens, less the unquoted captures before it; so it is that group if and only if there are none |
| LogPrefixParser.CompilerGroups | pkg/parselog/dynamic_parser.go:40-141 | for every prefix whose percent signs are followed by characters that begin no escape and no class (so not by a backslash or an opening bracket): when parentheses balance; the keys are the known placeholders, each with an index that is off by the unquoted captures before it, and so a group of the placeholder if, and for one that occurs once only if, there are none; len(indexMap)+3 is the level if and only if no placeholder repeats and no unquoted parenthesis captures |
| LogPrefixParser.BalanceWithoutUnquoted | pkg/parselog/dynamic_parser.go:78-101 | without unquoted parentheses the expression balances if and only if %q occurs at most once |
| LogPrefixParser.UnquotedParenthesis | pkg/parselog/dynamic_parser.go:72-97 | the prefix `%(` has no %q and yet compiles to an unbalanced expression, because the percent sign takes the backslash that quotes the parenthesis |
| LogPrefixParser.LevelOffBy | pkg/parselog/dynamic_parser.go:138 | where no placeholder repeats, the level index is too small by exactly the unquoted captures |
| LogPrefixParser.UnquotedGroup | pkg/parselog/dynamic_parser.go:72-138 | the prefix `%(%)` repeats nothing, has no %q and balances, and yet the level is group 4 where the parser reads group 3 |
| LogPrefixParser.BaseParser.SetIndex | pkg/parselog/dynamic_parser.go:117-136 | each key sets its own field |
| LogPrefixParser.BaseParser.Parse | pkg/parselog/logline_prefix_parser.go:239-273 | a line is accepted exactly when it matches and its time, if any, fits one of the two formats, whichever is tried first; the formats are only swapped |
| LogPrefixParser.GetDynamicBaseParser | pkg/parselog/dynamic_parser.go:111-141 | in whatever order the map is ranged over, every field is unset or the index of one of its own placeholders, and the level index is len(indexMap)+3 |
| LogPrefixParser.GettersMeaning | pkg/parselog/logline_prefix_parser.go:75-132 | each getter gives the text at its own index and nothing else, unless that text means unknown; level and description are next to each other |
| LogPrefixParser.HostMeaning | pkg/parselog/logline_prefix_parser.go:90-107 | the host is the text at its index up to the first parenthesis |
| LogPrefixParser.UnsetMeaning | pkg/parselog/logline_prefix_parser.go:75-128 | a getter whose placeholder the prefix lacks gives an error of its own |
| LogPrefixParser.GettersReadTheirGroups | pkg/parselog/logline_prefix_parser.go:75-140 | time, user, host, database and error code are unset exactly when the prefix has none of their placeholders; without unquoted captures they are read from a group opened by one of their own placeholders and by no other, and with them from an index too small by those before it; the description never indexes out of range; level and description read the right groups if and only if no known placeholder repeats and no unquoted parenthesis captures |
| RetryQueue.RetryQueue.SetAuthBlocked | pkg/mainserverclient/retry.go:43-47 | only the latch changes |
| RetryQueue.RetryQueue.Enqueue | pkg/mainserverclient/retry.go:56-72 | nothing when blocked; otherwise the post joins at the end, due two seconds later, and of fifty items the oldest is evicted |
| RetryQueue.RetryQueue.Flush | pkg/mainserverclient/retry.go:75-122 | the queue and the ledger after a flush; never more than 50 items, each with fewer than 5 attempts |
| RetryQueue.TryMeaning | pkg/mainserverclient/retry.go:87-115 | what one answer makes of an item: nothing while the context is done or the item is not due; 401 is an auth error; any other error keeps the item if it is 429, 5xx or without a status and the item had fewer than four attempts, due again after 5, 10, 30 and 60 seconds, and drops it otherwise |
| RetryQueue.FlushMeaning | pkg/mainserverclient/retry.go:85-122 | a flush posts exactly the due items up to the first auth error, delivers those answered without error, drops and keeps by their answers, all in order |
| RetryQueue.Client.Send | pkg/mainserverclient/client.go:237-253 | posts unless blocked, latches on status 401, queues on status 429, on the 5xx statuses and on errors without a status, and on no other answer |
| RetryQueue.FlushOpConserves | pkg/mainserverclient/retry.go:85-122 | a flush without auth error keeps every enqueued post in delivered, dropped, evicted or pending, and the pending ones in order |
| RetryQueue.EnqueueOpConserves | pkg/mainserverclient/retry.go:56-72 | so does an enqueue |
| RetryQueue.RunConserves | pkg/mainserverclient/retry.go:56-122 | so does every run up to the first auth error |
| RetryQueue.EnqueuesKeepNewest | pkg/mainserverclient/retry.go:67-71 | without flushes the queue holds exactly the latest fifty posts, and the others were evicted oldest first |
| RetryQueue.EnqueuesEnter | pkg/mainserverclient/retry.go:56-72 | posts enqueued while the latch is open are all enqueued, in turn |
| RetryQueue.ExactlyOnePlace | pkg/mainserverclient/retry.go:56-122 | each of distinct posts is in exactly one of the four places |
| RetryQueue.AuthErrorExact | pkg/mainserverclient/retry.go:99-103 | the flush that gets an auth error keeps the books if and only if, up to that error, every item was not due or failed and is to be tried again |
| RetryQueue.DeliveredYetQueued | pkg/mainserverclient/retry.go:99-103 | two due items, the first answered without error, the second with 401: the first is delivered and still queued |
| RetryQueue.AuthErrorsForgetAttempts | pkg/mainserverclient/retry.go:99-103 | n rounds of a flush ending in an auth error and a lifted latch repeat the same posts n times and leave the same items with the same attempts |
| RetryQueue.RepostsCounted | pkg/mainserverclient/retry.go:85-122 | on every run, auth errors included, a post is reposted at most five times for each time it was enqueued, plus its posts in flushes that ended in an auth error |
| RetryQueue.RepostedAtMostFiveTimes | pkg/mainserverclient/retry.go:104-108 | up to the first auth error of a flush, a post is reposted at most five times for each time it was enqueued |
| RetryQueue.DueFlushProgress | pkg/mainserverclient/retry.go:85-115 | a flush with everything due uses up attempts |
| RetryQueue.FiveFlushesDrain | pkg/mainserverclient/retry.go:11-22 | five flushes with everything due empty the queue, whatever the answers |
| RetryQueue.StepKeepsSystem | pkg/mainserverclient/retry.go:43-122 | under every interleaving of enqueues, latch changes and split flushes, at most 50 items with fewer than 5 attempts each |
| RetryQueue.OperationIsSteps | pkg/mainserverclient/retry.go:43-122 | every operation, a flush with an auth error included, is what its steps do with nothing in between, whatever flushes are under way |
| RetryQueue.RunIsSteps | pkg/mainserverclient/retry.go:43-122 | so every sequential run is one of the interleavings |
| RetryQueue.BackoffNeverClamped | pkg/mainserverclient/retry.go:109-113 | the backoff index is always within 1 to 4, for delays of 5, 10, 30 and 60 seconds |
| RetryQueue.AllAlongsideAccounts | pkg/mainserverclient/retry.go:82-115 | a flush under way accounts for everything enqueued before its snapshot |
| RetryQueue.WriteBackExact | pkg/mainserverclient/retry.go:117-121 | for a single flush, the steps during it enqueue some posts and evict some; after the write-back everything enqueued before the snapshot is accounted for; the whole ledger is balanced if and only if the posts enqueued in between are, as a multiset, those evicted in between, and with distinct posts if and only if nothing was enqueued in between |
| RetryQueue.OverlapExact | pkg/mainserverclient/retry.go:75-138 | with any steps in between, overlapping flushes included: the ledger is balanced if and only if what was enqueued in between is, as a multiset, what was evicted in between and what the other flushes delivered or dropped in between |
| RetryQueue.DeliveredTwice | pkg/mainserverclient/retry.go:75-138 | two overlapping flushes deliver the one due post twice, though nothing is enqueued |
| RetryQueue.LossHidden | pkg/mainserverclient/retry.go:67-71 | why distinct posts are needed: with fifty items queued, a post equal to the oldest is enqueued after the snapshot; after the write-back the ledger is balanced, and yet exactly those items are left that would be left without it |
| RetryQueue.SplitFlushRefines | pkg/mainserverclient/retry.go:85-122 | from any point of a flush on, with nothing in between, the posts and the write-back give what the rest of the atomic loop gives |
| RetryQueue.SplitFlushIsFlush | pkg/mainserverclient/retry.go:75-122 | with nothing in between, snapshot, posts and write-back are the atomic flush |
| CollectorSchedules.ParseScanCommands | pkg/config/collector_schedules.go:209-218 | the lower-case, trimmed, non-empty tokens in order |
| CollectorSchedules.TokenListed | pkg/config/collector_schedules.go:209-218 | a token is exactly a part between commas, in lower case and trimmed, that is not blank |
| CollectorSchedules.ExpandTargets | pkg/postgresdb/connect.go:73-112 | one target per non-empty database name |
| CollectorSchedules.TargetListed | pkg/postgresdb/connect.go:73-112 | a target is exactly the given server and credentials with a database listed between commas, trimmed and not blank |
| CollectorSchedules.CommandsFromPostgres | pkg/config/collector_schedules.go:21-84 | one command per token in order, or the first error; all takes over; no token means CIS and HBA |
| CollectorSchedules.CommandMeaning | pkg/config/collector_schedules.go:44-83 | which command a token becomes: postgres_cis, hba_scanner, guc_drift and pii_scanner their own, ssl_check and ssl_audit the SSL check, each log parser name its own with the section, which gets the prefix `%t ` where it has none and needs a log file, for unused_lines also a file of rules; any other token is unsupported |
| CollectorSchedules.EachToken | pkg/config/collector_schedules.go:43-83 | without all there is one command per token in order, or the error of the first token that has one |
| CollectorSchedules.CommandsMeaning | pkg/config/collector_schedules.go:21-84 | no target is an error; all among the tokens gives the one command all, no token the CIS and HBA commands, anything else the commands of the tokens |
| CollectorSchedules.CommandsStem | pkg/config/collector_schedules.go:44-83 | a PII or log parser command stems from its own token, and all commands have all targets |
| CollectorSchedules.PartitionScheduledCommands | pkg/config/collector_schedules.go:271-283 | three buckets in order |
| CollectorSchedules.OnlyCount | pkg/config/collector_schedules.go:259-283 | a command is in its own bucket as often as it occurs and in no other |
| CollectorSchedules.ExpandAllScheduleCommands | pkg/config/collector_schedules.go:239-257 | all becomes a core, a PII and four log parser commands, or the first error |
| CollectorSchedules.AssignScheduleCommands | pkg/config/collector_schedules.go:202-207 | one more assignment is mapped; a blank schedule drops its commands, and no empty entry is left behind |
| CollectorSchedules.MergeLegacyCrons | pkg/config/collector_schedules.go:174-193 | every entry joins its schedule, or the first error: no schedule, unparsable, more often than daily |
| CollectorSchedules.BuildCollectorScheduleMap | pkg/config/collector_schedules.go:119-172 | the map holds at each schedule exactly the commands assigned to it, or the first error |
| CollectorSchedules.MapConserves | pkg/config/collector_schedules.go:119-172 | over all schedules every assigned command occurs as often as it was assigned, and no schedule is empty |
| CollectorSchedules.ScanRouting | pkg/config/collector_schedules.go:131-165 | without all, PII and log parser commands are at their own schedule if set and everything else at the collector schedule, and nowhere else |
| CollectorSchedules.ScheduleMapExact | pkg/config/collector_schedules.go:119-193 | without all, the whole map: routed scan commands plus legacy commands at every schedule, and their multiset over all schedules |
| CollectorSchedules.NotReady | pkg/config/collector.go:69-74 | without a server, a schedule or scan commands the section assigns nothing |
| CollectorSchedules.AllRouting | pkg/config/collector_schedules.go:131-165 | with all: the one command all at the collector schedule where neither PII nor log parsing has a schedule of its own; else the core there, and the PII and the four log parser commands each at their own schedule or there, once, and nowhere else |
| CollectorSchedules.AllMapExact | pkg/config/collector_schedules.go:119-193 | with all, the whole map: these and the legacy commands at every schedule |
| ScheduledChecks.GetLogParserCron | cmd/ciscollector/crons.go:172-198 | one log parser runner per target, or the first error |
| ScheduledChecks.GetProcessorsForCron | cmd/ciscollector/crons.go:31-170 | the runners of every command, or the error or panic (no log parser section, no shield) that costs all of them |
| ScheduledChecks.CommandRuns | cmd/ciscollector/crons.go:31-198 | which checks a command runs for a target, by its name: postgres_cis the CIS checks, hba_scanner the HBA check, ssl_check the SSL check, guc_drift the settings, common_users the passwords of common users, all_core CIS, HBA, SSL and the passwords of every user, the cloud and MySQL commands theirs; pii_scanner, the log parser commands and all theirs on exactly the stated conditions; any other name none |
| ScheduledChecks.ScheduleRunner | cmd/ciscollector/crons.go:366-425 | one tick starts the runners of every target of every command, in order, up to a command that panics |
| ScheduledChecks.PanicMeaning | cmd/ciscollector/crons.go:172-188 | a command panics exactly when it is a log parser command or all, has targets but no log parser section, and its schedule parses |
| ScheduledChecks.TickMeaning | cmd/ciscollector/crons.go:366-425 | a tick runs a check for a target exactly when one of its commands does and no command up to that one panics |
| ScheduledChecks.ResolvedParses | pkg/config/config.go:119-206 | a resolved log parser section is accepted exactly when its files match |
| ScheduledChecks.MapChecks | cmd/ciscollector/crons.go:366-425 | the checks that run for a target over all schedules are those of all assigned commands, gathered by schedule; at a command without its log parser section a schedule stops |
| ScheduledChecks.TickChecks | cmd/ciscollector/crons.go:366-425 | the runners that a tick starts, in order, run exactly the checks of its targets |
| ScheduledChecks.RunsJoin | cmd/ciscollector/crons.go:366-425 | scan commands have their sections, so the legacy commands behind them at the same schedule take nothing away from them |
| ScheduledChecks.CoreIsItsParts | cmd/ciscollector/crons.go:71-119 | the core of all runs what the CIS, HBA and SSL commands run, and the password check of every user |
| ScheduledChecks.AllRuns | cmd/ciscollector/crons.go:33-67 | the command all runs all checks for a target, without a shield configuration all but the PII scan, or none |
| ScheduledChecks.SplitRuns | pkg/config/collector_schedules.go:239-257 | the split commands run the core checks always, and PII and log parsing each on its own condition |
| ScheduledChecks.SplitAllExact | pkg/config/collector_schedules.go:136-165 | on schedules that are set up, split and single all run the same checks for a target if and only if schedules parse, files match and the PII configuration, if there is a shield, is built; otherwise the single command runs all or nothing, the split ones at least the core checks |
| ScheduledChecks.SplitMapsAgree | pkg/config/collector_schedules.go:119-172 | the same over the built maps, legacy entries included: equal if and only if the two differ in nothing but checks that the legacy entries run anyway; without legacy entries that is the condition above |
| ScheduledChecks.SplitRunsAgree | cmd/ciscollector/crons.go:225-255 | with setting up, which fails as a whole when the scheduler refuses a schedule: the two run the same if and only if the single map is refused, or both are accepted and agree, or only the single one is accepted and runs nothing |
| CronReconcile.CommandMapSignature | cmd/ciscollector/crons.go:261-287 | the signature text, command by command |
| CronReconcile.SignatureEmpty | cmd/ciscollector/crons.go:458-462 | only the empty list has the empty signature, which an unknown schedule reads as |
| CronReconcile.SignatureExact | cmd/ciscollector/crons.go:261-287 | for command lists whose texts keep the separators apart, equal signatures mean equal commands except for the users, passwords and connection settings of targets, MySQL servers and the schedule inside the log parser section, and conversely |
| CronReconcile.SeparableTexts | cmd/ciscollector/crons.go:261-287 | which separators must not stand in which text for that |
| CronReconcile.SignaturesCollide | cmd/ciscollector/crons.go:274-283 | without that the text is ambiguous: a prefix that ends in the separator with file `f`, and the prefix without it with a file that begins with it, have the same signature |
| CronReconcile.SignatureIgnoresMysql | cmd/ciscollector/crons.go:263-285 | commands that differ only in their MySQL servers have the same signature |
| CronReconcile.SignatureIgnoresPassword | cmd/ciscollector/crons.go:265-276 | commands that differ only in the password of a target have the same signature |
| CronReconcile.UnseenSignature | cmd/ciscollector/crons.go:261-287 | so have all lists that differ in nothing but what a signature does not see, whatever their texts |
| CronReconcile.Cron.AddFunc | pkg/cron/cron.go:49-51 | an entry under a fresh id exactly when the spec parses |
| CronReconcile.CronHelper.RemoveDeleted | cmd/ciscollector/crons.go:449-456 | entries of schedules no longer wanted go, all others stay |
| CronReconcile.CronHelper.Update | cmd/ciscollector/crons.go:458-475 | an unchanged signature changes nothing; otherwise one new entry replaces the old; a failing schedule changes nothing |
| CronReconcile.CronHelper.ReconcileSchedules | cmd/ciscollector/crons.go:442-477 | succeeds exactly when every wanted schedule parses; then exactly the wanted schedules have entries of the wanted signatures, unchanged ones kept; the helper stays consistent in every case |
| CronReconcile.ReconciledMeaning | cmd/ciscollector/crons.go:442-477 | after a success there is exactly one live entry for every wanted schedule and no other, with exactly the wanted commands unless the schedule had an entry of the same signature before, which then is still there |
| CronReconcile.ConsistentMeaning | cmd/ciscollector/crons.go:205-206 | the live entries are exactly the values of an injective map with the keys of the hash map, each registered with commands of its signature |
| CronReconcile.ReconciledRunsWanted | cmd/ciscollector/crons.go:442-477 | after reconciling, the live entry of every wanted schedule has the wanted commands up to what a signature does not see, not merely commands with the same text |
| CronReconcile.OldPasswordStays | cmd/ciscollector/crons.go:442-477 | when only a password has changed, reconciling leaves the live entry with the old one |
| CronReconcile.SeenRunAlike | cmd/ciscollector/crons.go:366-425 | lists that agree in all a signature sees start the same runners in the same order, with the same checks for the same servers and databases but perhaps other credentials, unless a MySQL command is among them |
| CronReconcile.RepeatChangesNothing | cmd/ciscollector/crons.go:442-477 | reconciling again with the same signatures adds and removes nothing |
| CronGuard.StepKeepsInv | pkg/cron/cron.go:60-100 | the one token is in the channel, held by the run in progress, or lost to a panic |
| CronGuard.RunKeepsInv | pkg/cron/cron.go:60-100 | in every state of every interleaving of firings |
| CronGuard.OneAtATime | pkg/cron/cron.go:86-100 | the entry can always be fired; at most one run in progress; started + skipped = decided; putting the token back never waits; the token is there exactly when nothing runs and nothing has panicked |
| CronGuard.ReturnGivesBack | pkg/cron/cron.go:86-100 | a job that returns can put the token back at once, and then the firing has completed and the token is there; one that panics leaves none |
| CronGuard.RunTally | pkg/cron/cron.go:86-100 | on every run there is a firing for each time the entry was fired, a panicked one for each panic, a completed one for each token put back; without a panicking job no firing has panicked, and the token is there exactly when every job that started has put it back |
| CronGuard.StepsAreRun | pkg/cron/cron.go:60-100 | the states that a list of steps goes through are a run |
| CronGuard.SkipExact | pkg/cron/cron.go:91-97 | a firing is skipped exactly when a run is in progress or one has panicked before |
| CronGuard.PanicIsForever | pkg/cron/cron.go:19-27 | after one panic nothing starts again |
| RdsSubscriptions.GetList | rds/4.3.0.go:311-382 | the leading strings of a list, and whether it is null |
| RdsSubscriptions.LeadingStringsMeaning | rds/4.3.0.go:335-342 | exactly the items before the first that is no string |
| RdsSubscriptions.EnabledForAll | rds/4.3.0.go:70-121 | true exactly for instance type or no type with both lists null |
| RdsSubscriptions.FindMissing | rds/4.3.0.go:255-283 | the required categories that the list lacks |
| RdsSubscriptions.BlameListed | rds/4.3.0.go:290-300 | each listed id fails, with the missing categories once for each time it is listed |
| RdsSubscriptions.SettleCases | rds/4.3.0.go:151-168 | a pass or manual status overrides the case of every database, and every database has a case |
| RdsSubscriptions.Execute430 | rds/4.3.0.go:124-309 | status and cases for every answer of the getter, including the panic on an empty list: with a subscription for all every case passes, with several and none for all every case is for manual checking, without subscriptions or with a lone one of another type every case fails |
| RdsSubscriptions.LengthsExact | rds/4.3.0.go:234-238 | comparing lengths is comparing extras with uncovered databases; it agrees with coverage exactly when there are no extras, or some database is uncovered but not as many as there are extras |
| RdsSubscriptions.VerdictExact | rds/4.3.0.go:209-308 | for a list without repeats of databases only, the check passes if and only if it names every database and lacks no category |
| RdsSubscriptions.CasesExact | rds/4.3.0.go:151-168 | when only coverage fails a database passes exactly when listed; when a category is missing none passes; after a pass all pass |
| RdsSubscriptions.RepeatHidesGap | rds/4.3.0.go:234-238 | a repeated id makes the check pass although a database has no subscription |
| RdsSubscriptions.ForeignIdFails | rds/4.3.0.go:234-238 | an id that is no database fails the check although all are covered |

## Left out

- BackupHistory.Run: `budget` is how many iterations of an inner loop are observed, which makes a loop that does not stop a value; the claims about non-empty histories are made for every budget that covers the distance between the first and the last backup.
- Calendar: local time zones, daylight saving and the year range of Go's time package; a day number in one fixed-offset zone is used.
- HbaRules.ParseHBAFileRules: reading rows of pg_hba_file_rules, the other source of rules beside ScanHBAFile. The linear first match (FirstIsLowest, IndexReadsLinearly) is stated for rules in line order, as a file has them.
- HbaRules.ScanHBAFile: opening the file, and the regular expression, included lists and roles behind a line's fields, which are a parameter.
- HbaRules.HbaUnusedLineParser.Feed: the regular expressions that read user, host and database off a message are parameters; what GetUser, GetHost and GetDatabase give is an option.
- LogPrefixShapes.PrefixMeaning: asks that no percent sign is followed by a character that needs quoting; such a prefix emits unquoted characters (PercentPieces), whose meaning to the library is not modelled. The part behind %q is CompiledOptional.
- LogPrefixParser.CompilerGroups: asks that no percent sign is followed by a backslash or an opening bracket; of other prefixes GenerateRegexString, PanicExact and PiecesOfLetters speak. How the regular expression library searches a line is not modelled (LogPrefixShapes says what the parts of the expression accept), nor its complaints about repetition operators that a percent sign leaves unquoted or about malformed group names.
- RetryQueue.Client.Send: marshalling and HTTP; the answer is a parameter. The retry queue is present, as in every client that is built with one.
- RetryQueue.WriteBackExact: one flush at a time with any enqueues and latch changes in between; OverlapExact is the statement for overlapping flushes.
- ScheduledChecks.SplitAllExact: says which checks are started when the schedules are set up and every runner comes to its end. A log parser runner whose prefix does not compile panics (PanicExact and CompilerGroups say when) and takes the later runners of its tick with it.
- ScheduledChecks.SplitMapsAgree: the same; SplitRunsAgree adds schedules that the scheduler refuses.
- PasswordScan: cancellation by the context; unreadable files count as having no lines; users are their positions in the list.
- WsHub: the write error path of the pump is a step that stops it; JSON and the socket are not modelled.
- CollectorSchedules.BuildCollectorScheduleMap: cron expressions are parsed by a parameter, and texts are ASCII.
- CronReconcile.CronHelper.ReconcileSchedules: schedules are visited in any order instead of sorted order, so after an error which of the others were already updated is left open. It asks that no wanted list is empty, which MapConserves gives.
- CronGuard: one wrapped job; a replaced entry has a guard of its own.
- RdsSubscriptions.Execute430: takes any getter; the one shipped gives an error for an empty list (rds/4.3.0.go:55-57), so the panic on an empty list needs another one. Not modelled: the printed table and the wording of reasons; a case is a value written back to the map, since nothing else holds it.
- Reports, e-mail, pushes to the main server, databases, AWS and shell commands, TLS and certificates, command-line parsing and the front end.
- pkg/piiscanner and pkg/cmd_processor: they depend on terminals, timeouts or a comparator that is no order.

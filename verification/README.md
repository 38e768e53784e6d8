# sessiond, modelled and proved

sessiond is a session daemon: it measures how long a user has been inactive and reacts to it. This project models its
two cores in Dafny and proves what they promise.

**The inactivity engine** (`src/timeline.c`, `src/sessiond.c`, the inhibitors of `src/dbus-server.c`,
`src/backlight.c`, `src/hooks.c`). A timeline keeps an array of timeouts, split by `index` into those that have fired
and those that are pending, and at most one armed source for the next of them. A fired timeout is announced with TRUE;
when activity resumes, `timeline_start` takes the announcements back with FALSE, latest first. Taking back the idle
timeout calls `set_idle(FALSE)`, which calls `timeline_start` again inside the same loop. The inhibitors stop and
restart the timeline; backlights and hooks rely on each TRUE being undone by exactly one FALSE.

**The TOML reader** (`src/toml/toml.c`, and `print_escape_string` of `src/toml/toml_json.c`). A lexer whose treatment
of the dot depends on the caller, a recursive-descent parser that grows a tree of tables with five kinds of writers, an
unescaper with a growing buffer, and a UTF-8 codec of one to six bytes.

## How it is built

Each operation that changes state is a method of a class - or a loop over arrays and sequences - and is proved equal
to a function of the state before it. The theorems are about those functions.

| files | content |
|---|---|
| `Session` | the classes `Timeline`, `Daemon` and `DBusServer`, re-entrant as in the source. The mutual recursion terminates because the idle flag falls, or the index does |
| `SessionModel` | the same operations as functions on states, with a log of every callback and effect |
| `Unwinding` | what the nested unwinding amounts to, and when a log of callbacks is paired |
| `Runs`, `RunTheorems` | events, the invariant each of them keeps, and the theorems over whole runs |
| `TimerTheorems`, `HookTheorems` | starting, waking, adding, removing, inhibiting; the commands hooks spawn |
| `Departures` | runs in which the session does not do what is meant |
| `Backlights`, `Hooks` | the device table and the hook array |
| `Utf8`, `BasicString`, `StringAgreement` | the codec, the unescaper, the printer of escapes |
| `Lexer`, `TomlKeys` | tokens, keys and string values |
| `TomlTree` | tables and arrays in an arena, lookups and writers |
| `TomlGrammar`, `TomlParser` | the parser as terminating functions, and in place as a class proved equal to them |
| `TomlProperties`, `TreeShape` | the tree only grows, is well formed, and is a tree |
| `TableHeaders`, `HeaderKeys`, `HeaderText` | headers in any order, from their paths and from their text |

## Where the code departs from its intent

Each is a theorem that says exactly when the code meets the intent, with a run or an input on which it does not.

- `RemovalExact`, `RemovalKeepsSides`: `src/timeline.c:147` tests `i <= index`. Removing the timeout at `index` takes
  an earlier one for pending, or wraps the index around when it is 0 (`RemovalWrapsIndex`); and a fired timeout that is
  removed never gets its FALSE (`RemovalLeavesIdle`: the session stays idle for good).
- `AddableExact`: `src/timeline.c:135` reads past the array if and only if the new timeout and all others are due. That
  happens once everything has fired: `inactive_since` is -1 then, and the time measured is the age of the clock
  (`AddReadsPastEnd`).
- `AddExact`: a running timeline takes a new timeout correctly if and only if a source is armed, the next timeout is
  still pending, and the fired ones are due.
- `WakeExact`: the delay armed after a wake is the time left if and only if the next timeout is not overdue as well;
  otherwise the unsigned subtraction of `src/timeline.c:65` wraps (`LateWakeWraps`).
- `IdleRearmsWhileInhibited`: a session that was idle when it was inhibited is armed again by an unlock or by a wake
  from sleep, in spite of its inhibitor (`InhibitedYetArmed`).
- `OneActivePerEvent`: `man/sessiond-dbus.8.pod:134-137` says that IdleHint is false when Active is emitted. The code
  emits it with IdleHint still true exactly when idleness had set in before the last fired timeout and it is not an
  unlock or a wake from sleep that ends it (`ActiveWhileIdle`).
- `DimThenRestore`: a dim and a restore bring the level back exactly when the cached brightness was known and current
  (`StaleCacheLosesLevel`).
- `EncodeDecode`: the UTF-8 decoder also takes surrogates, noncharacters and forms that are longer than needed
  (`DecodesTooMuch`).
- `PrintParseRoundTrip`: `print_escape_string` writes other control characters raw, and the reader refuses them; an
  empty string followed by a quote reads as the start of a triple-quoted one (`PrintingFails`).
- `BareKeyScans`, `BareKeyBreaks`, `HeaderTextParses`: a bare key of a header that starts like a date is taken whole if
  and only if it has none but the characters of dates, and no dot comes behind it or behind the spaces that follow it;
  the date branch at `src/toml/toml.c:1663-1671` swallows the dot. So `[2020-01-01.a]` is refused, and
  `['2020-01-01'.a]` is read (`DottedDateRefused`).

## Model

| member | source | states |
|---|---|---|
| Session.Timeline.Start | src/timeline.c:155-173 | the in-place start, re-entered by the callbacks it makes, ends in the state that the function Start gives, with at most one source attached |
| Session.Timeline.Rewind | src/timeline.c:158-162 | the unwinding loop leaves index 0 and the daemon as the nested Unwind gives it, wherever it was entered |
| Session.Timeline.Stop | src/timeline.c:175-184 | nothing if stopped; otherwise disarmed and not measuring, and still running exactly if something had fired |
| Session.Timeline.OnTimeout | src/timeline.c:50-73 | a dispatch fires the next timeout if it is due and arms the following one, stops at the end, or re-arms for the rest; the dispatched source is gone |
| Session.Timeline.RemoveSource | src/timeline.c:75-84 | no source is attached afterwards, and nothing else changes |
| Session.Timeline.AddSource | src/timeline.c:86-96 | exactly one fresh source is attached, with the given delay |
| Session.Timeline.AddTimeout | src/timeline.c:113-139 | Known, and unchanged, exactly for a known timeout; PastEnd exactly if every timeout is due, the new one too, at the clock it read; and the state that the function Add gives, up to the read past the end |
| Session.Timeline.Reschedule | src/timeline.c:123-136 | the sorted array, the count of due timeouts as index, a TRUE for the new one if it is due, and the armed delay, or PastEnd if there is no timeout at that index |
| Session.Timeline.Recount | src/timeline.c:127-132 | the index becomes the number of timeouts that are due |
| Session.Timeline.RemoveTimeout | src/timeline.c:141-153 | the first occurrence goes; the index falls, with wrap-around, if it was at or before it |
| Session.Timeline.InactiveSeconds | src/timeline.c:24-25 | whole seconds since the start of inactivity, truncated to guint |
| Session.Daemon.SetIdle | src/sessiond.c:177-200 | nothing if unchanged; otherwise flag, hint, unit, lock on idle or restart of the timeline, and hooks, in this order |
| Session.Daemon.OnTimeout | src/sessiond.c:378-397 | the callback of the timeline, including the re-entrant start when the idle timeout is taken back |
| Session.Daemon.FinishTimeout | src/sessiond.c:384-396 | devices, hooks and the Inactive or Active signal, and the flag `inactive` |
| Session.Daemon.OnLock | src/sessiond.c:202-229 | locking and unlocking, with the end of idleness on unlock |
| Session.Daemon.OnSleep | src/sessiond.c:231-246 | sleeping and waking, with the lock on sleep and the end of idleness on waking |
| Session.Daemon.OnInhibit | src/sessiond.c:260-274 | inhibited, not inactive, and the timeline stopped |
| Session.Daemon.OnUninhibit | src/sessiond.c:276-291 | nothing while inhibitors remain; otherwise the hint and a start of the timeline |
| Session.Daemon.OnInput | src/sessiond.c:356-369 | a start of the timeline unless inhibited |
| Session.Daemon.InitTimeline | src/sessiond.c:432-443 | the timeline runs with the idle timeout and those of the hooks, each once |
| Session.Daemon.AddHookTimeouts | src/hooks.c:41-49 | the timeouts of the inactive hooks are added, in order and without repetition, and nothing else changes |
| Session.DBusServer.HandleInhibit | src/dbus-server.c:90-107 | the inhibitor is in the table and the session is inhibited |
| Session.DBusServer.HandleUninhibit | src/dbus-server.c:109-143 | an unknown identifier is an error that changes nothing; a known one goes, its count is signalled, and the last one starts the timeline |
| Session.DBusServer.HandleStopInhibitors | src/dbus-server.c:145-175 | whatever the order of the hash table, the table is emptied with the counts k-1 to 0, and the number of entries is returned |
| Unwinding.UnwindCalls | src/timeline.c:155-173 | however the starts nest, every fired timeout gets its FALSE exactly once, latest first |
| Unwinding.UnwindState | src/sessiond.c:177-200 | an unwinding ends idleness exactly if the idle timeout had fired, with one idle hint; it ends inactivity if anything had fired; it restores the devices of what had fired |
| Unwinding.UnwindActives | src/sessiond.c:391-396 | an unwinding emits exactly one Active if the session was inactive and something had fired, and none otherwise; with IdleHint true exactly if idle set in before the last fired timeout |
| Unwinding.OpenMeansPaired | src/timeline.c:50-73 | a log is paired if and only if every timeout sees TRUE, FALSE, TRUE, ... in alternation; what is open is what saw TRUE last |
| Unwinding.TakenBackCloses | src/timeline.c:158-162 | taking back the fired prefix leaves nothing open |
| TimerTheorems.StartUnwinds | src/timeline.c:155-173 | from any state a start of a running timeline ends with index 0, the first timeout armed, all FALSE calls made once, and the devices restored |
| TimerTheorems.OneActivePerEvent | man/sessiond-dbus.8.pod:134-137 | an event emits one Active exactly if it starts the timeline of an inactive session, never two; and exactly when IdleHint is still true at it |
| TimerTheorems.WakeExact | src/timeline.c:50-73 | no TRUE before its seconds have elapsed; an early wake re-arms with the positive rest; the next delay is exact if and only if it is not overdue, and otherwise wraps |
| TimerTheorems.QuietPeriodAscends | src/timeline.c:50-73 | over any quiet period the TRUE calls are the next timeouts, each once, strictly ascending, none before its time since the same start |
| TimerTheorems.AddableExact | src/timeline.c:127-135 | adding to a running timeline reads within the array if and only if the new timeout, or any other, is not due |
| TimerTheorems.AddExact | src/timeline.c:113-139 | adding to a running timeline reads within the array and keeps the invariant if and only if the array is split at the seconds measured |
| TimerTheorems.AddKeepsSplit | src/timeline.c:123-136 | then the array stays ascending, the fired prefix gains the new timeout exactly if it is due, only then is its TRUE delivered, and the least pending one is armed without wrap |
| TimerTheorems.RemovalKeepsSides | src/timeline.c:141-153 | a removal keeps the others on their side of the split if and only if it is not at the index |
| TimerTheorems.RemovalExact | src/timeline.c:141-153 | a removal keeps the session's invariant if and only if the timeout is pending behind the next one |
| TimerTheorems.QuietWhileInhibited | src/dbus-server.c:90-107 | inhibited while not idle, no source is armed and no callback happens until the last inhibitor goes, over every run |
| TimerTheorems.InhibitDisarms | src/sessiond.c:260-274 | inhibiting disarms at once, defers the FALSE calls, and stays running exactly if something had fired |
| TimerTheorems.IdleRearmsWhileInhibited | src/sessiond.c:202-246 | an inhibited session is armed by an unlock or a wake from sleep if and only if it is idle |
| TimerTheorems.StopInhibitorsExact | src/dbus-server.c:145-175 | stopping k inhibitors signals k-1 to 0, takes what had fired back exactly once, and leaves one source armed for the least timeout |
| Runs.StepKeepsInv | src/timeline.c:50-184 | every possible event keeps the invariant: sorted and free of repetition, armed as it should be, fired prefix due and exactly what is open, idle exactly if the idle timeout has fired, inhibited exactly if there is an inhibitor |
| Runs.StartResets | src/timeline.c:155-173 | a start closes all that is open and arms the least timeout, also for a timeline that was not running |
| Runs.AddedArray | src/timeline.c:123-136 | what sorting and counting make of the array when a timeout is added |
| Runs.DuePrefix | src/timeline.c:128-132 | in an ascending array the due timeouts are a prefix, as long as the count |
| Runs.NeverEarly | src/timeline.c:24-25 | truncated seconds reach a timeout only after at least that many whole seconds |
| Runs.SplitAllowsAdd | src/timeline.c:134-135 | with the array split at the seconds measured, an add never reads past the end |
| RunTheorems.PairedOverRuns | src/timeline.c:155-184 | over every run each timeout sees TRUE and FALSE in turn and is at TRUE exactly in the fired prefix; idle exactly when the idle timeout is in it; inhibited exactly when the table is not empty |
| RunTheorems.Booted | src/sessiond.c:432-443 | init_timeline establishes the invariant that every event keeps |
| RunTheorems.BootedTimeouts | src/sessiond.c:432-443 | the timeouts then are the idle timeout and those of the hooks and no others, and the least one is armed |
| RunTheorems.BootedDevices | src/backlight.c:374-403 | a session that starts with undimmed devices starts in the relation that BacklightsComeBack needs |
| RunTheorems.BacklightsComeBack | src/backlight.c:374-403 | over every run in which a device's cache is fresh when its own timeout fires, a device is dimmed exactly while its timeout is in the fired prefix, and is back at its original level when nothing is |
| RunTheorems.StepDevices | src/backlight.c:277-302 | every event keeps that relation between the devices and the fired prefix |
| Departures.RemovalWrapsIndex | src/timeline.c:141-153 | idle after 5 seconds and a hook after 10: removing 5 at the start makes the index 2^32 - 1 |
| Departures.RemovalLeavesIdle | src/timeline.c:141-153 | once 5 has fired and is removed, no activity ends idleness |
| Departures.LateWakeWraps | src/timeline.c:64-65 | timeouts 5 and 6, and a wake after 100 seconds: the delay armed is 2^32 - 94 |
| Departures.AddReadsPastEnd | src/timeline.c:123-135 | once 5 has fired, the only one, adding 3 at 10 seconds reads past the array |
| Departures.InhibitedYetArmed | src/sessiond.c:231-246 | idle, then inhibited, then awake from sleep: inhibited with a source armed |
| Departures.ActiveWhileIdle | src/sessiond.c:378-397 | timeouts 5 and 10 fire, then input: Active is emitted once, with IdleHint true |
| HookTheorems.HooksAlternate | src/hooks.c:24-63 | over every run the hooks of a timeout spawn start commands and stop commands in turn; stop comes next exactly while the timeout is in the fired prefix |
| HookTheorems.UnwindBatches | src/hooks.c:59-63 | in a nested unwinding each fired timeout has its stop commands spawned exactly once |
| Hooks.RunHooksTimeout | src/hooks.c:24-39 | the commands of the matching hooks for the state, in the order of the hooks |
| Backlights.BacklightTable.DimValue | src/backlight.c:277-282 | saves the cached brightness and sets the value |
| Backlights.BacklightTable.DimPercent | src/backlight.c:284-293 | nothing for an unknown brightness; otherwise saves it and sets the rounded target |
| Backlights.BacklightTable.RestoreOne | src/backlight.c:295-302 | nothing if nothing was saved; otherwise sets what was saved and forgets it |
| Backlights.BacklightTable.OnTimeout | src/backlight.c:374-403 | whatever the order of the hash table, exactly the devices configured for the timeout are dimmed or restored |
| Backlights.DimTargetRounds | src/backlight.c:291-292 | with a percentage in the range that src/config.c allows, the target is in 0..v and within one half of v * (1 - percent) |
| Backlights.DimThenRestore | src/backlight.c:277-302 | a dim and a restore bring the level back if and only if the cache was known and current |
| Backlights.StaleCacheLosesLevel | src/backlight.c:277-302 | a stale cache brings a device back to the wrong level, and an unknown one leaves it dimmed |
| Utf8.UcsToUtf8 | src/toml/toml.c:181-256 | -1 and an untouched buffer for a refused code; otherwise its bytes at the offset, and every other byte untouched |
| Utf8.Utf8ToUcs | src/toml/toml.c:89-173 | the code and the number of bytes, or -1 for a bad lead byte, a bad continuation or a short input |
| Utf8.DecodeEncode | src/toml/toml.c:89-256 | with anything behind it, an encoding decodes to its code and takes its own bytes only |
| Utf8.RoundTrip | src/toml/toml.c:89-256 | any list of encodable codes comes back from the concatenation, every byte consumed |
| Utf8.EncodeDecode | src/toml/toml.c:89-173 | bytes that decode are the encoding of their code if and only if it is encodable and they are no longer than needed |
| Utf8.DecodesTooMuch | src/toml/toml.c:89-173 | ED A0 80 decodes to the surrogate U+D800, and C0 80 to U+0000 |
| BasicString.NormBasicStr | src/toml/toml.c:454-569 | the growing buffer has room for every write and the final NUL, and never holds more bytes than were read; the result is what Unescape gives |
| BasicString.UnescapeShrinks | src/toml/toml.c:454-569 | unescaping never lengthens, six-byte codes and line-ending escapes included |
| BasicString.ReadHex | src/toml/toml.c:519-536 | exactly the given number of hexadecimal digits, and their value |
| StringAgreement.LexerAgrees | src/toml/toml.c:1633-1661 | a content the lexer accepts is accepted by the unescaper if and only if it has no raw control character but tabs and no code without an encoding |
| StringAgreement.UnescaperAgrees | src/toml/toml.c:1633-1661 | the converse: a content the unescaper accepts, without a bare quote, is scanned to its closing quote |
| StringAgreement.PrintEscapeString | src/toml/toml_json.c:37-52 | the loop writes the escape of every byte |
| StringAgreement.EscapeRoundTrip | src/toml/toml_json.c:37-52 | printing and unescaping gives the string back if its control characters have escapes, and is refused otherwise |
| TomlKeys.TokensAgree | src/toml/toml.c:2098-2147 | a single-line basic string that the lexer made a token is a string for toml_rtos if and only if it has no raw control character but tabs and only encodable codes |
| TomlKeys.PrintParseRoundTrip | src/toml/toml_json.c:37-52 | in any text a printed and quoted string is one token that reads back as itself, if and only if its control characters have escapes and it is not empty with a quote behind it |
| TomlKeys.PrintingFails | src/toml/toml_json.c:37-52 | a string of the control character 1 is printed and then refused; an empty one before a quote is not one token |
| TomlKeys.NormLitStr | src/toml/toml.c:401-445 | the growing buffer has room for every byte and the NUL; the content is copied unless it holds a forbidden control character |
| TomlKeys.ReadString | src/toml/toml.c:2098-2147 | toml_rtos on every source, with its checks of both ends and the newline it skips |
| TomlKeys.ReadKey | src/toml/toml.c:573-633 | the normalised key, or the error of a bad escape, a newline or a character no bare key has |
| Lexer.ReadToken | src/toml/toml.c:1687-1728 | the in-place scan for the next token gives what NextToken says |
| Lexer.ScanStringAt | src/toml/toml.c:1579-1684 | the five kinds of strings and literals, each ending where ScanString says |
| Lexer.ScanTripleString | src/toml/toml.c:1592-1621 | the scan of a triple-quoted string, whose count of quotes escapes do not reset |
| Lexer.SkipGap | src/toml/toml.c:1700-1724 | blanks and comments are skipped and no newline is |
| Lexer.TokensPartition | src/toml/toml.c:1524-1728 | successive tokens are ordered and disjoint, only blanks and comments lie between them, and each lineno is 1 plus the newlines before it |
| Lexer.TokenProgress | src/toml/toml.c:1674-1728 | each token moves on, except at the end of input or as a STRING of no characters, which repeats for ever |
| TomlTree.LookUp | src/toml/toml.c:640-673 | the three loops of check_key find the first entry of the key, values before arrays before tables |
| TomlProperties.AddValueKeeps | src/toml/toml.c:683-718 | a new key-value leaves all else in place, keys distinct and the tree a tree |
| TomlProperties.AddTableKeeps | src/toml/toml.c:723-765 | so does a new table in a table |
| TomlProperties.AddArrayKeeps | src/toml/toml.c:770-807 | so does a new array in a table |
| TomlProperties.ElementKeeps | src/toml/toml.c:940-976 | so does a new value in an array, which stays of one kind and one value type |
| TomlProperties.PushKeeps | src/toml/toml.c:812-850 | so does a new array or table in an array of that kind |
| TreeShape.OneParent | src/toml/toml.c:683-850 | in a tree the root has no parent, and every other table and every array exactly one |
| TreeShape.OneWay | src/toml/toml.c:683-850 | everything in a tree is reached from the root in exactly one way, so that freeing it from the root visits each table and array once |
| TomlParser.TomlParse | src/toml/toml.c:1337-1409 | terminates on every text, with the tree or the first error that the function Parse gives |
| TomlParser.Context.NextToken | src/toml/toml.c:1687-1728 | moves to the next token, or fails as the lexer does |
| TomlParser.Context.Eat | src/toml/toml.c:862-863 | moves on from a token of the given kind |
| TomlParser.Context.SkipNewlines | src/toml/toml.c:853-859 | skips NEWLINE tokens and stops at the end of input |
| TomlParser.Context.CreateKeyval | src/toml/toml.c:683-718 | refuses a key that is there in any kind; otherwise adds one value |
| TomlParser.Context.CreateKeytable | src/toml/toml.c:723-765 | makes an implicit table explicit, refuses any other key that is there, adds one table otherwise |
| TomlParser.Context.CreateKeyarray | src/toml/toml.c:770-807 | refuses a key that is there; otherwise adds one array |
| TomlParser.Context.ParseTable | src/toml/toml.c:872-910 | an inline table, up to its closing brace |
| TomlParser.Context.ParseArray | src/toml/toml.c:929-1029 | an array, element by element, of one kind and one value type |
| TomlParser.Context.ParseKeyval | src/toml/toml.c:1037-1104 | a key-value, with dotted keys that open or create tables |
| TomlParser.Context.FillTabpath | src/toml/toml.c:1117-1161 | the segments of a header, ten at most, each the key of its token |
| TomlParser.Context.WalkTabpath | src/toml/toml.c:1167-1234 | the table that the path leads to, with implicit tables made on the way and the last table of an array entered |
| TomlParser.Context.ParseSelect | src/toml/toml.c:1238-1332 | a header line, single or double, selects its table |
| TomlParser.Context.ParseLines | src/toml/toml.c:1379-1404 | the loop of toml_parse over all statements |
| TomlGrammar.NextIsGood | src/toml/toml.c:1687-1728 | a token read from a good one is good: it lies in the text, on its line, and if it cannot move on it never will |
| TomlGrammar.NextBurns | src/toml/toml.c:1687-1728 | every token burns fuel until the end of input or a STRING of no characters, and from there nothing comes but the same |
| TomlProperties.ParseLinesKeeps | src/toml/toml.c:1379-1404 | over all statements still to come the tree only grows and stays well formed |
| TomlProperties.ParsedTreeIsWellFormed | src/toml/toml.c:1337-1409 | what a parse gives is a tree, in which each key occurs once in its table across all kinds and arrays are homogeneous in kind and value type |
| TomlProperties.LookupsExclude | src/toml/toml.c:1731-1774 | exactly one of the three lookups finds a key of a table, none finds another, and toml_key_in enumerates each key at one position |
| TomlProperties.LookupsStayToTheEnd | src/toml/toml.c:1745-1774 | what a lookup finds before some statements it finds after them |
| TomlProperties.ParseKeyvalKeeps | src/toml/toml.c:1037-1104 | a key-value only adds to the tree and keeps it well formed, however it nests |
| TomlProperties.ParseElementKeeps | src/toml/toml.c:929-1029 | so does an element of an array, which stays of one kind and one value type |
| TomlProperties.ParseSelectKeeps | src/toml/toml.c:1238-1332 | so does a header line, single or double |
| TableHeaders.LookupAfterAdd | src/toml/toml.c:751-762 | a new table is found by the one path through its parent and its key, and every other path leads where it did |
| TableHeaders.HeaderShapes | src/toml/toml.c:1238-1313 | a header adds its prefixes, makes its own path explicit, and is refused exactly if it was |
| TableHeaders.HeadersMakeClosure | src/toml/toml.c:1117-1313 | a list of headers is accepted if and only if no path repeats; the tree is then the prefix closure, implicit exactly on what is not listed |
| TableHeaders.HeadersInAnyOrder | src/toml/toml.c:1238-1313 | two orders of the same headers make the same paths, implicit in both or in neither |
| HeaderKeys.BareKeyScans | src/toml/toml.c:1662-1684 | a bare key of a header that is Whole is one token |
| HeaderKeys.BareKeyBreaks | src/toml/toml.c:1662-1684 | a bare key that is not Whole is never one token: the token runs over the dot behind it or ends inside of it |
| HeaderKeys.BasicKeyScans | src/toml/toml.c:1633-1661 | a key in quotes whose content the unescaper accepts is one token, whatever comes behind it in a header |
| HeaderKeys.LiteralKeyScans | src/toml/toml.c:1623-1631 | a key in apostrophes is one token |
| HeaderKeys.QuotedKeyReads | src/toml/toml.c:573-613 | the token of a quoted key is normalised to the key |
| HeaderText.FillReads | src/toml/toml.c:1117-1161 | the keys of a header are read, to its closing bracket, if and only if there are at most ten and all are Whole |
| HeaderText.HeaderTextParses | src/toml/toml.c:1337-1409 | from text to tree: lines of headers with bare and quoted keys, blanks and comments parse if and only if every header has at most ten keys, all of them Whole, and no path repeats; the tree is then the prefix closure, implicit exactly on what is not listed |
| HeaderText.TextsInAnyOrder | src/toml/toml.c:1238-1313 | two such texts for the same paths, in any order and any spelling, give the same tables, implicit in both or in neither |
| HeaderText.DottedDateRefused | src/toml/toml.c:1663-1671 | [2020-01-01.a] is refused, although its keys are bare keys, and the same path with a quoted key is read |

## Left out

- Config reload, server vanish and cleanup at exit: they discard timeline state without its FALSE callbacks.
- Backlight hotplug within runs: adding and removing a timeout are events of their own; the device table is fixed, since a removed device may share its timeout with another one.
- RemoveCall: a run removes only timeouts pending behind the next one; RemovalExact says why no other removal keeps the invariant.
- AddCall: a run adds to a running timeline only when the array is split at the seconds measured; AddExact says why. What C reads past the array is not modelled: AddTimeout ends there with PastEnd.
- BacklightsComeBack: assumes that the cached brightness of an undimmed device is current when its own timeout fires, and that setting a brightness succeeds and is not clamped by the device.
- GLib, DBus, logind, systemd and X11: what they do is an event, and what is asked of them is an effect in the log. LockedHint is current when it is read, and identifiers of inhibitors are fresh; the times inhibitors were set are not kept.
- The clock of the main context never goes back and may advance by any amount; dispatch may be early or late.
- Polling in src/xsource.c, DPMS and the muting of audio.
- Loading of the configuration and parsing of hook commands: a configuration is a value. A percentage above 1.0, for which the C conversion is undefined, gives a target of 0.
- Devices are values in a map of the table, and not shared structs; the hash table of inhibitors is a map.
- timeline_pending_timeouts: a subtraction that nothing calls.
- Values of numbers, booleans and timestamps: the type that valtype gives to a raw value is a parameter of the parser.
- ScanString: a date or time at the very end of the text is an error called Overrun; the C loop at src/toml/toml.c:1666 passes the terminating NUL there, and what it reads is not modelled.
- Texts are the bytes before the terminating NUL. An `isalnum` on them is that of ASCII.
- Tables and arrays are positions in an arena and not pointers; failure to allocate, `longjmp` and freeing are left out, and an error is a result.
- Failure: an error carries its line and its category, and not the wording of its message.
- HeaderTextParses: about texts whose lines are single-bracket headers or empty; for other statements ParsedTreeIsWellFormed and ParseLinesKeeps say what holds of every text.
- Triple-quoted strings are lexed and unescaped, but their agreement is not stated: the lexer's count of quotes is not reset by escapes, so a token may end where the unescaper sees an escaped quote.
- toml_parse_file, the accessors by index, and JSON output other than the escaping of strings.

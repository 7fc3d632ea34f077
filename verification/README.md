# logstore (hermes) — a Dafny model of the collector's core

logstore (the Go module `hermes`) is a small log collector. Agents POST
newline-separated JSON log records and the records are stored in ClickHouse.
Clients read logs back over HTTP or over a WebSocket that streams them in
batches, and a static web interface is served under `/web`. This project
models the logic between the collector's I/O calls. Each database answer,
dial outcome, clock reading, generated id and JSON decoding is a parameter
of the model, and the Go behaviour that follows from it is stated and proved
in Dafny.

Modules, following the source files:

| module | file | what it models |
|---|---|---|
| `Base` | base.dfy | `Option`/`Result`, Go's `int32`/`int64` ranges and int64 wrap-around |
| `GoStrings` | gostrings.dfy | `strings.TrimSpace`, `TrimPrefix`, `Split`, `Join` |
| `Strconv` | strconv.dfy | `strconv.Atoi`, `ParseInt(s, 10, 64)`, `ParseBool`, `%d` formatting, `NumError.Error()` |
| `Civil` | civil.dfy | the proleptic Gregorian calendar behind `time.Format("20060102")` |
| `GoPath` | gopath.dfy | `path.Clean` and the two-argument `filepath.Join` |
| `Url` | url.dfy | `url.Values` lookups |
| `CoreUtils` | core_utils.dfy | core/utils.go: `StrIsEmpty`, `ToYYYYMMDD` |
| `Utils` | utils.dfy | utils.go: `strIsEmpty`, `toYYYYMMDD` |
| `Message` | message.dfy | core/message.go: payload types, `InputLogContext.Keys`/`Values` |
| `Connection` | connection.dfy | clickhouse/connection.go: `GetLog` batching, context rebuild, `Insert` |
| `Pool` | pool.dfy | clickhouse/pool.go: the connection pool as a state machine |
| `Driver` | driver.dfy | driver_clickhouse.go: `Open`, `Collect`, `FetchingLog` |
| `Ingest` | ingest.dfy | `bufio.Scanner` line splitting and the filter-and-map loop shared by every `collectLog` |
| `ApiInput` | api_input.dfy | api_input.go: `collectLog` |
| `DbClickhouse` | db_clickhouse.dfy | db_clickhouse.go: `createOption`, `toYYYYMMDD`, query building of `selectLogWithOpt` |
| `Api` | api.dfy | api.go: `mapKeys`/`mapValues`, `collectLog`, the read handlers and their deferred writes, the reversal loop |
| `MainApp` | main_app.dfy | main.go: `collectLog` with its log/message fallback and per-tag fan-out, `retrieveLog` |
| `WebSocket` | websocket.dfy | websocket.go: the `read` loop and the relay goroutine |
| `WebInterface` | webinterface.dfy | webinterface.go: the path handed to `http.ServeFile` |

The source holds three revisions of the ingestion handler: api_input.go,
api.go and main.go. They cannot be compiled together. Each one is modelled
in its own module, named after its file.

Modelling choices:

- **Pool channel.** Every channel operation in clickhouse/pool.go runs while
  the pool mutex is held. A receive therefore finds a connection exactly when
  the idle queue is not empty, so `AcquireWithTimeout`'s timeout is decided
  by the state and is not a free choice. A send onto a full channel while
  holding the mutex never completes. The model reports that as `SendBlocks`
  / `ReleaseBlocks` / `Hangs`, and proves that the pool invariant rules it
  out.
- **Iteration order.** `range` over a Go map visits keys in an unspecified
  order. Each `range` is given its order as a parameter, so the model never
  assumes that `Keys()[i]` pairs with `Values()[i]`.
- **Shared connections.** A `*Connection` is one object that the pool's
  channel and every caller holding it share. The pool keeps the
  connection objects in `conns`, indexed by an id given when each is
  opened. The channel and the callers hold ids, so a stamp or a close made
  through one holder is seen by all of them.
- **Strings.** Go strings are byte sequences; the model's strings are
  sequences of Unicode code points. Lengths and slices agree with Go's when
  the text is ASCII, as the dates, tags and option strings of this code are
  in practice. Where a byte length decides a panic, "## Left out" says so.
- **Time.** Timestamps are converted in UTC. `timestamp * 1e6` is wrapped
  to int64 explicitly, as Go does.

## Model

| member | source | states |
|---|---|---|
| Message.Keys | core/message.go:15-24 | A nil context gives the empty slice; otherwise every key of the map appears exactly once, so the length is the map's size. |
| Message.Values | core/message.go:26-35 | A nil context gives the empty slice; otherwise each value appears as many times as there are keys mapped to it, so the length is the map's size. |
| Message.ValueCount | core/message.go:30-34 | Ranging over distinct keys, each value occurs once for every key that maps to it. |
| Message.RangeOrderCoversKeys | core/message.go:19-23 | A range order visits exactly the map's keys. |
| Message.KeysValuesMayMispair | core/message.go:15-35 | Two legal range orders of the same map can make `Keys()[0]` and `Values()[0]` belong to different keys. |
| CoreUtils.StrIsEmpty | core/utils.go:10-12 | True exactly when every character is white space, the empty string included. |
| CoreUtils.InstantDay | core/utils.go:15 | The UTC day of a millisecond timestamp is the floor of ms / 86400000 when ms * 1e6 fits in int64. With the product wrapped, the day always lies within the span of an int64 nanosecond instant, -106752 to 106751 days from the epoch. |
| CoreUtils.ToYYYYMMDD | core/utils.go:14-16 | Eight digits forming a valid civil date whose day number is the Unix epoch's plus the timestamp's UTC day. |
| CoreUtils.EpochDayIsNewYear1970 | core/utils.go:15 | The epoch day used is the day number of 1970-01-01. |
| CoreUtils.ToYYYYMMDDIsCivilDay | core/utils.go:14-16 | When ms * 1e6 fits in int64, the date is the civil date of the floor of ms / 86400000 days after the epoch. |
| CoreUtils.SameDaySameDate | core/utils.go:14-16 | Two timestamps on the same UTC day give the same string. |
| CoreUtils.LaterDayGreaterDate | core/utils.go:14-16 | A timestamp on a later UTC day gives a lexicographically greater string. |
| CoreUtils.LaterInstantDayGreaterDate | core/utils.go:14-16 | A later UTC day gives a lexicographically greater string on the whole int64 range, wrapped products included. |
| CoreUtils.SampleTimestamp | db_clickhouse.go:18 | Example, not a general property: 1588842127114 renders as "20200507", the date of the sample row in the table comment. |
| Utils.StrIsEmpty | utils.go:8-10 | True exactly when every character is white space. |
| Utils.NonSpaceNotEmpty | utils.go:8-10 | A string with any non-white-space character is not empty. |
| Utils.ToYYYYMMDD | utils.go:12-14 | The same code as core/utils.go's, so defined by it: eight digits that form a valid date, the civil date of the timestamp's UTC day. |
| Utils.AgreesWithCore | utils.go:8-14 | `strIsEmpty` and `toYYYYMMDD` agree with core/utils.go's pair on every input. |
| GoStrings.TrimSpace | core/utils.go:11 | The result is empty exactly when the input is all white space; otherwise it neither starts nor ends with white space. |
| GoStrings.TrimPrefix | webinterface.go:18 | With the prefix present, prefix + result is the input; without it, the input is unchanged. |
| GoStrings.Split | driver_clickhouse.go:30 | One more piece than separators, and no piece contains the separator. |
| GoStrings.JoinSplit | driver_clickhouse.go:36-37 | Joining the pieces of a split with the separator gives back the input. |
| GoStrings.SplitHeadTail | driver_clickhouse.go:36-37 | The first piece is the text before the first separator, and the remaining pieces joined are the text after it. |
| Strconv.ParseIntAs | driver_clickhouse.go:52 | An error names the function and the input; the empty string is a syntax error. |
| Strconv.ParseInt | driver_clickhouse.go:52 | `ParseInt(s, 10, 64)` errors name "ParseInt" and carry the input; the empty string is a syntax error. |
| Strconv.Atoi | db_clickhouse.go:231 | `Atoi` gives the same value as `ParseInt`, and the same error except that it names "Atoi". |
| Strconv.ParseFormatRoundTrip | clickhouse/connection.go:114 | `ParseInt` and `Atoi` read back every int64 that `%d` formatted. |
| Strconv.NonDigitIsSyntaxError | db_clickhouse.go:231 | A non-digit after the optional sign makes parsing fail. |
| Strconv.ParseBool | db_clickhouse.go:254 | True exactly for "1", "t", "T", "TRUE", "true" and "True"; false for the six false spellings; an error for any other text. |
| Civil.DateOf | core/utils.go:15 | Every day number has a valid civil date whose day number is that day. |
| Civil.DayNumberMonotone | core/utils.go:15 | A later civil date has a larger day number. |
| Civil.DateOfMonotone | core/utils.go:15 | A larger day number has a later civil date. |
| Civil.YYYYMMDD | core/utils.go:15 | The eight-digit rendering reads back as the same date. |
| Civil.RenderMonotone | core/utils.go:15 | For years 0–9999, a later date renders as a lexicographically greater string. |
| Connection.BuildContext | clickhouse/connection.go:105-110 | The rebuild fails (Go's index panic) exactly when there are fewer values than keys. Otherwise the map's keys are the listed keys, and each key holds the value at its last position, so a later duplicate overwrites an earlier one. |
| Connection.AssignDomain | clickhouse/connection.go:107-108 | After the first n assignments the map's keys are exactly the first n keys. |
| Connection.AssignLast | clickhouse/connection.go:107-108 | After n assignments each key holds the value paired with its last occurrence. |
| Connection.RebuildPaired | clickhouse/connection.go:105-110 | Keys in a range order of a map, paired with the values along that same order, rebuild exactly the map. |
| Connection.ToPayload | clickhouse/connection.go:112-124 | A row becomes a payload unless the rebuild panics. The tag is the query's, not the stored one; id and date are the row's; `IdStr` is the id in decimal. |
| Connection.PayloadIdRoundTrip | clickhouse/connection.go:113-114 | Parsing `IdStr` gives back the row's id. |
| Connection.ScanRows | clickhouse/connection.go:76-136 | Without a panic, fewer than `BatchSize` rows stay buffered, and everything pushed during the scan is a code-200 "OK" batch. |
| Connection.Store | clickhouse/connection.go:112-135 | Storing a row keeps every pushed message a code-200 batch. |
| Connection.ScanRowsBatches | clickhouse/connection.go:125-136 | With BatchSize > 0, every pushed batch is full, fewer than a batch stay buffered, and the pushed rows followed by the buffered ones are all the rows in scan order. |
| Connection.ScanRowsPanics | clickhouse/connection.go:76-112 | The scan panics exactly when some row has fewer context values than keys, or when BatchSize is 0 and there is a row. |
| Connection.GetLog | clickhouse/connection.go:58-163 | A failed query pushes exactly one 500 message carrying the error and returns the error. A negative BatchSize panics in `make`. The call returns nil exactly when the last push is the 204 sentinel. Any return ends with a non-200 message, and every earlier message is code 200. |
| Connection.GetLogDeliversAll | clickhouse/connection.go:125-162 | A clean cursor with BatchSize b > 0 returns nil and ends with the 204. The batches' data, concatenated, is every row's payload in scan order. All batches but the last hold b rows; the last holds between 1 and b. |
| Connection.GetLogScanFailureDropsBuffered | clickhouse/connection.go:92-103 | A failing `Scan` returns its error and ends with one 500, with no sentinel. Only full batches were delivered, as a prefix of the rows; the fewer-than-b buffered rows are lost. |
| Connection.GetLogIterationFailureFlushes | clickhouse/connection.go:137-155 | A failing `rows.Err` still delivers every row, the partial batch included, then the 500 with the error; no 204 is pushed. |
| Connection.StoredRow | clickhouse/connection.go:179-189 | The row an `Exec` writes has the freshly drawn id and the date of its own timestamp; every other column is the entry's. |
| Connection.Insert | clickhouse/connection.go:165-198 | Begin and Prepare errors are returned with their message prefixes and nothing is stored. Otherwise one id is drawn per entry. The result is nil exactly when Begin, Prepare and Commit all succeed, and a failed commit stores nothing. |
| Connection.Executed | clickhouse/connection.go:178-193 | The loop executes at most one row per entry; `ExecutedKeepsOthers` says which. |
| Connection.ExecutedKeepsOthers | clickhouse/connection.go:178-193 | A failing `Exec` is skipped and the loop goes on: the executed rows are exactly the entries whose `Exec` did not fail, in order, each with its own id. |
| Connection.InsertStoresSucceeding | clickhouse/connection.go:178-196 | When the transaction commits, the stored rows are exactly the entries whose `Exec` succeeded, in order, each with the id drawn at its position. |
| Connection.SucceedingExactly | clickhouse/connection.go:178-193 | Every index whose `Exec` succeeds is among the stored ones, in increasing order. |
| Pool.CloseConn | clickhouse/connection.go:19-23 | Closing a connection marks that object closed with a zero timestamp; every other connection and the rest of the pool are unchanged. |
| Pool.OpenConnection | clickhouse/pool.go:115-136 | A dial failure is an error. A success creates a new connection object, stamped now, enqueues it and increments `nowActive`. |
| Pool.OpenInitial | clickhouse/pool.go:63-68 | The initial opens succeed exactly when every dial succeeds, and leave that many new connections idle in dial order, each stamped now. |
| Pool.CreateCHPool | clickhouse/pool.go:44-72 | max < min fails with "max must be larger than min". min < 0 or max ≤ 0 fails with "number of active connection must larger than zero". Otherwise the pool is created exactly when all min dials succeed, with nowActive == min idle connections, the bounds stored and the pool open. |
| Pool.Acquire | clickhouse/pool.go:138-160 | A closed pool answers "pool is closed" and is unchanged. Otherwise the head idle connection is handed out, its shared object stamped now, and `nowActive` drops by one. "pool too busy" never reaches the caller. Under the pool invariant the call never blocks, keeps the invariant, and dereferences nil exactly when the pool is empty and the dial fails. On an empty pool the new connection is both handed out and left in the queue. |
| Pool.AcquireHandsOutIdleConnection | clickhouse/pool.go:133-158 | On an empty pool the new connection is handed out and also left idle, so the next `Acquire` hands the same object to a second caller, and its stamp reaches the first holder. |
| Pool.AcquireHandsOutClosedConnection | clickhouse/pool.go:155-178 | With `maxActive` 1, the first holder's `Release` finds the pool full, because its own connection is still counted idle, and closes it; the next `Acquire` hands out that closed connection. |
| Pool.AcquireFixed | clickhouse/pool.go:138-160 | The corrected acquire: closed and idle cases as written, and a fresh connection is handed out without being enqueued. |
| Pool.AcquireFixedExclusive | clickhouse/pool.go:133-158 | With the correction, the connection handed out is never also idle, and a queue without repeats stays without repeats. |
| Pool.ReleaseKeepsDistinct | clickhouse/pool.go:166-181 | Releasing a connection that is not idle keeps the queue free of repeats. |
| Pool.Release | clickhouse/pool.go:166-181 | A closed pool, or one with nowActive ≥ maxActive, closes the shared connection object and changes nothing else. An enqueue stamps the object now, appends its id at the tail and increments nowActive. Under the invariant the call never blocks and keeps the invariant. |
| Pool.Close | clickhouse/pool.go:183-198 | The pool ends closed. Under the invariant it closes every idle connection, in queue order, and the queue and nowActive become empty; other connections are untouched. |
| Pool.CloseAll | clickhouse/pool.go:189-191 | Exactly the connections listed end closed with a zero timestamp; the others are unchanged. |
| Pool.CloseRounds | clickhouse/pool.go:187-196 | The rounds close a prefix of the queue, in order, and count each one off `nowActive`. |
| Pool.CloseRoundsDrain | clickhouse/pool.go:187-196 | When there are no more idle connections than rounds left, the loop closes the whole queue. |
| Pool.CloseTwice | clickhouse/pool.go:183-198 | A second `Close` closes nothing more and changes nothing. |
| Pool.ReclaimTick | clickhouse/pool.go:78-111 | A closed pool stops the ticker and is unchanged; a tick keeps the pool invariant. |
| Pool.ReclaimLoop | clickhouse/pool.go:85-111 | The inner loop keeps the invariant and the pool's bounds and closed flag. |
| Pool.ExpiredRun | clickhouse/pool.go:103 | The length of the run of expired connections at the head of a queue: all before it have now − ts > maxLifeTime, and the one at it has not. |
| Pool.ReclaimClosesExpiredRun | clickhouse/pool.go:85-107 | When no connection is queued twice, a tick closes exactly the expired connections at the head of the queue, in FIFO order. |
| Pool.ReclaimRotatesFirstFresh | clickhouse/pool.go:85-110 | When no connection is queued twice, after a tick the queue is the original minus the expired head run, with the first fresh connection moved to the tail. Those expired connections are closed, the fresh one is stamped now, and every other connection is unchanged. |
| Pool.ReclaimSkipsExpired | clickhouse/pool.go:103-107 | An expired head is closed, and the loop continues on the rest of the queue. |
| Pool.ReclaimStopsAtFresh | clickhouse/pool.go:109-110 | A fresh head is stamped now, released back to the tail, and ends the loop. |
| Driver.ApplyOption | driver_clickhouse.go:29-65 | An option fails exactly when it has no "=" or its number does not parse, and with that error; unknown keys leave the settings unchanged. |
| Driver.SplitOption | driver_clickhouse.go:30-37 | `strings.Split` gives at least two parts exactly when "=" occurs. The key is the text before the first "=", and the value is the rest rejoined, "=" included. |
| Driver.ParseOptions | driver_clickhouse.go:29-66 | No options gives the defaults, and a failure is always the error of one of the options on its own. |
| Driver.ParseOptionsOk | driver_clickhouse.go:29-66 | Parsing succeeds exactly when every option is well formed. |
| Driver.ParseOptionsLast | driver_clickhouse.go:29-66 | Options are applied left to right, and the first error stops parsing. |
| Driver.FirstBadOption | driver_clickhouse.go:29-34 | The index of the first malformed option: every earlier one is well formed. |
| Driver.ParseOptionsFirstError | driver_clickhouse.go:29-66 | A failed parse reports the error of the first malformed option. |
| Driver.ParseOptionsCollectsDsnOptions | driver_clickhouse.go:60-62 | The DSN options are the values of the `dsnopts` options, in the order given. |
| Driver.Dsn | driver_clickhouse.go:73-76 | "tcp://" + address, followed by "?" and the options joined by "&" only when there are options. |
| Driver.Open | driver_clickhouse.go:22-83 | Option errors are returned as they are. A blank address fails with "missing address". Otherwise `Open` succeeds exactly when `CreateCHPool` does: its error comes back as a pool error, and the pool created is the one returned, with the built DSN, the parsed bounds and lifetime, and the pool invariant. |
| Driver.OpenWithoutOptions | driver_clickhouse.go:23-71 | With no options the defaults are min 0, max 1 and lifetime 300000, and the empty address fails. |
| Driver.ToEntry | driver_clickhouse.go:102-110 | Tag, timestamp, container name and message are copied; the level goes through `LogLevelInt`; the two context arrays have equal length; id and date are left for `Insert`. |
| Driver.ToEntries | driver_clickhouse.go:99-111 | n payloads map to n entries, in order. |
| Driver.Collect | driver_clickhouse.go:85-114 | A closed pool returns its error. Under the pool invariant the call never hangs and keeps the invariant, panics exactly on an empty pool whose dial fails, and otherwise returns `Insert`'s result on the mapped entries. The head idle connection it takes goes back to the tail stamped with the call's time, no other connection changes, and `nowActive` ends where it started. |
| Driver.FetchingLog | driver_clickhouse.go:137-156 | Once a connection is acquired the result is nil, whatever `GetLog` returned; its pushed messages are the stream. The deferred `Release` runs also when `GetLog` panics, so the connection taken from the queue goes back to its tail, stamped with the call's time, either way. A closed pool returns its error. |
| Driver.StoredContextMayScramble | driver_clickhouse.go:108-109 | Two legal range orders store {a:1, b:2} so that it reads back as {a:2, b:1}. |
| Driver.ToEntryPaired | driver_clickhouse.go:102-110 | The corrected mapping: keys in one range order, each paired with its own value. |
| Driver.PairedContextRoundTrip | driver_clickhouse.go:108-109 | With the correction, `GetLog`'s rebuild gives back exactly the stored context. |
| Ingest.DropCR | api_input.go:33-37 | The scanner drops one trailing carriage return and nothing else. |
| Ingest.ScanLines | api_input.go:33-37 | One line per newline, plus one for unterminated trailing text, and no line contains a newline. |
| Ingest.LinesRejoin | api_input.go:33-37 | Without carriage returns, the lines joined by newlines, plus the final newline if there was one, give back the body. |
| Ingest.FilterMapExactly | api_input.go:36-51 | The kept records come from increasing line positions, each the per-line decision on its line, and every accepted line is kept. |
| Ingest.FilterMapAppend | api_input.go:36-51 | Filtering a concatenation concatenates the filtered parts. |
| ApiInput.AcceptLine | api_input.go:38-49 | A line is kept exactly when it is not empty, decodes, and has a non-blank message; the kept record is the decoded one with the trimmed query tag. |
| ApiInput.Records | api_input.go:36-51 | At most one record per line, each carrying the query tag. |
| ApiInput.RecordsExactly | api_input.go:36-51 | The records are the accepted lines' decodings, in line order, and no accepted line is lost. |
| ApiInput.RecordsAppend | api_input.go:36-51 | One bad line does not stop later lines: records of a concatenated body concatenate. |
| ApiInput.CollectLog | api_input.go:15-59 | "OK" is written first, before anything else. A missing tag calls no driver. Otherwise the drivers are called in order with the same records: a returned error is only logged, while a panic or a block ends the handler. |
| ApiInput.Calls | api_input.go:53-58 | The calls are a prefix of the drivers, each with the same records; every call but the last returned, and the loop stops early only after a call that panicked or blocked. |
| ApiInput.CalledIffEarlierReturned | api_input.go:53-58 | Driver j is called exactly when every driver before it returned. |
| ApiInput.AllCalledWhenAllReturn | api_input.go:53-58 | When every driver returns, every driver is called. |
| ApiInput.CallsOnce | api_input.go:53-58 | Among distinct drivers, driver j is called at position j of the effects if the loop reaches it, and nowhere else. |
| ApiInput.EachDriverOnce | api_input.go:53-58 | No driver is called twice, and a driver is called exactly when every earlier driver returned. |
| DbClickhouse.NumberParam | db_clickhouse.go:229-251 | An absent parameter gives the default; a present one is `Atoi` of its first value. |
| DbClickhouse.HeadParam | db_clickhouse.go:253-255 | `is_head` is true exactly when its first value is one of `ParseBool`'s true spellings; text that does not parse leaves it false. |
| DbClickhouse.CreateOption | db_clickhouse.go:216-267 | A missing tag is exactly `errorMissingTag`. A bad limit, and only then a bad id, aborts with its parse error. Otherwise the option holds the first tag, the limit, the id, the date or today, head, the first container values when present, and all greps. |
| DbClickhouse.CreateOptionDefaults | db_clickhouse.go:217-242 | Example, not a general property: a query with only a tag gets limit 100, id 0, today's date, tail order, no greps and no container filters. |
| DbClickhouse.CreateOptionBadLimit | db_clickhouse.go:229-236 | Example, not a general property: the limit "x" fails with `Atoi`'s syntax error before the id is read. |
| DbClickhouse.CreateOptionKeepsDateText | db_clickhouse.go:238-242 | Example, not a general property: a date that is not a date is passed through without validation. |
| DbClickhouse.ToYYYYMMDD | db_clickhouse.go:273-275 | The same code as core/utils.go's, so defined by it: eight digits forming the civil date of the timestamp's UTC day. |
| DbClickhouse.ToYYYYMMDDAgreesWithCore | db_clickhouse.go:273-275 | The same function as core/utils.go's. |
| DbClickhouse.AndGroup | db_clickhouse.go:397-418 | The group is empty exactly when there are no terms. |
| DbClickhouse.AndGroupText | db_clickhouse.go:397-418 | The group's text is "AND (" + terms joined by " AND " + ")". |
| DbClickhouse.GrepCondition | db_clickhouse.go:391-402 | No greps gives no clause; otherwise one placeholder per grep. |
| DbClickhouse.GrepConditionText | db_clickhouse.go:391-398 | The grep clause is one "positionCaseInsensitive(message, ?) > 0" per grep, joined by " AND ", inside "AND (...)". |
| DbClickhouse.ContainerCondition | db_clickhouse.go:405-419 | No container filter gives no clause; otherwise one placeholder per filter present, name first. |
| DbClickhouse.ContainerParams | db_clickhouse.go:406-414 | One argument per container term, in the same order. |
| DbClickhouse.IdCondition | db_clickhouse.go:422-431 | "id > ?" when reading from the head or when the id is 0; otherwise "id < ?". |
| DbClickhouse.Ordered | db_clickhouse.go:434-437 | ASC exactly when reading from the head, DESC otherwise. |
| DbClickhouse.SelectSql | db_clickhouse.go:390-445 | The query text has 4 + greps + container filters placeholders: application, date, one per grep, one per container filter, id and limit. |
| DbClickhouse.SqlOf | db_clickhouse.go:441-445 | The template adds three placeholders (application, date, limit) to those of its conditions. |
| DbClickhouse.Params | db_clickhouse.go:386-438 | Arguments are ordered application, date, the grep arguments, the container values, id, limit. |
| DbClickhouse.SelectLogQuery | db_clickhouse.go:386-445 | As written the greps go in as one list argument at position 2, so the text has `|greps| − 1` more placeholders than arguments; the two agree exactly when there is at most one grep. Application and date come first, id and limit last. |
| DbClickhouse.SelectLogQueryMiscounts | db_clickhouse.go:392-402 | Example of the general miscount: with two greps the text has six placeholders but only five arguments. |
| DbClickhouse.GrepParams | db_clickhouse.go:392-402 | One text argument per grep, in order. |
| DbClickhouse.SelectLogQueryFixed | db_clickhouse.go:386-445 | The corrected query keeps the written text, every placeholder has exactly one argument, and grep i fills the i-th grep term. |
| Api.MapKeys | api.go:31-40 | Nil gives empty; otherwise every key once, with the map's length. |
| Api.MapValues | api.go:42-51 | Nil gives empty; otherwise each value once per key mapped to it, with the map's length. |
| Api.BuildEntry | api.go:85-93 | The k-th fresh id, the tag, the timestamp with its date, the container name, and equal-length context arrays; message and level are copied only when asked. |
| Api.BuildEntries | api.go:68-95 | One entry per record, in order, the k-th with the k-th id. |
| Api.Collect | api.go:54-114 | The deferred "OK" is written last. Entries are inserted exactly when there is a tag and a connection, then once, before the "OK", one per accepted record; otherwise "OK" is all that is written. |
| Api.CollectLog | api.go:54-114 | The deferred "OK" is always the last thing written. A missing tag or no connection stores nothing. Otherwise one row per accepted line, with the k-th id, the trimmed tag and the timestamp's date, but with an empty message and level. |
| Api.CollectLogDropsMessage | api.go:82-93 | Every stored row comes from a record with a non-blank message, yet its message is empty. |
| Api.CollectLogDropsHello | api.go:85-93 | Example of `CollectLogDropsMessage`: a record with message "hello" and level "info" is stored with neither. |
| Api.CollectLogFixed | api.go:85-93 | The corrected handler keeps each record's non-blank message and its level. |
| Api.CollectLogFixedOnlyAddsText | api.go:85-93 | The correction stores the same rows in the same order; only message and level differ. |
| Api.AcquireStatus | api.go:185-196 | An acquire error or a nil connection is a 500; only a connection goes on. |
| Api.ListOfTagResponse | api.go:175-208 | The response the handler builds: the acquire error, the lookup error, or 200 with the tags. |
| Api.RetrieveListOfTag | api.go:183 | As written the body is always {200, "OK"} with no tags, because the deferred call copied the initial response. |
| Api.RetrieveListOfTagHidesOutcome | api.go:183-207 | A failed acquire is reported as success, and a successful lookup returns no tags. |
| Api.RetrieveListOfTagFixed | api.go:175-208 | Corrected: the code is 200 exactly when a connection and the tag list were obtained, and then the data are the tags. |
| Api.HistoryValue | api.go:253 | For a key of at least eight characters: v[0:4] "-" v[4:6] "-" v[6:8]. A shorter key panics. |
| Api.HistoryValueOfDate | api.go:253 | A stored YYYYMMDD date shows as YYYY-MM-DD. |
| Api.HistoryRows | api.go:251-258 | The rows are produced exactly when no key is shorter than eight characters, one {key, formatted value} per key, in order. |
| Api.TagHistoryResponse | api.go:210-261 | Acquire first, then a missing tag is 400 "missing tag", then the lookup, then the formatting; a panic leaves the response untouched. |
| Api.RetrieveListOfTagHistory | api.go:218 | As written it writes {200, "OK"} with no rows, even after a panic. |
| Api.RetrieveListOfTagHistoryFixed | api.go:210-261 | Corrected: a missing tag reports 400, an acquire failure 500, and success has one row per history key. |
| Api.LogResponse | api.go:263-314 | Missing tag 400, bad number 500 with the parse error, then acquire and lookup errors. The data are always dropped (`Data = nil`). |
| Api.RetrieveLog | api.go:271 | As written the body is always {200, "OK"} with no rows. |
| Api.RetrieveLogHidesMissingTag | api.go:271-278 | A request without a tag is answered 200 instead of 400. |
| Api.RetrieveLogFixed | api.go:263-314 | Corrected: a missing tag reports 400, and 200 "OK" exactly when the option, the connection and the lookup all succeed. |
| Api.Reverse | api.go:309-312 | The loop from len/2 − 1 down to 0 keeps the length and puts element len−1−j at position j; the model reverses a sequence value rather than the slice in place. |
| Api.WriteResponse | api.go:162-173 | A marshalling failure writes the {500, error text} envelope instead of the response. |
| MainApp.IsStringNilOrEmpty | main.go:34-36 | True exactly for nil or an all-white-space string. |
| MainApp.Normalize | main.go:66-72 | A record is dropped exactly when both log and message are blank. Otherwise log keeps its value if not blank and takes message's otherwise, message is set to log, and nothing else changes. |
| MainApp.NormalizeIdempotent | main.go:66-72 | A normalized record normalizes to itself. |
| MainApp.AcceptLine | main.go:55-72 | A line is kept exactly when it is not empty, decodes, and survives the fallback. |
| MainApp.Messages | main.go:54-79 | At most one message per line; `MessagesSettled` and `MessagesExactly` say which. |
| MainApp.MessagesSettled | main.go:54-79 | Every surviving message has message == log and is not blank. |
| MainApp.MessagesExactly | main.go:54-79 | The surviving messages come from increasing line positions, and no accepted line is lost. |
| MainApp.GroupAt | main.go:73-77 | The j-th row of one message's group carries tag j. |
| MainApp.Tagged | main.go:73-77 | Each message contributes one row per tag, so there are messages × tags rows. |
| MainApp.FanOut | main.go:73-77 | messages × tags rows, the k-th with the k-th id drawn. |
| MainApp.FanOutAt | main.go:73-77 | There are messages × tags rows; row i·|tags| + j is message i with tag j and the id drawn at that position. |
| MainApp.TaggedRow | main.go:73-77 | Every row carries one of the tags and its message's settled text. |
| MainApp.FanOutTagsRejoin | main.go:46-74 | The tags of one message's rows, joined by commas, give back the query's tag value. |
| MainApp.CollectLog | main.go:38-84 | Without a tag only the deferred "OK" is written. Otherwise `insert` is called once, even with no rows, on the fanned-out rows, and then "OK". |
| MainApp.CollectLogRowCount | main.go:46-77 | The number of rows is accepted lines × (commas in the tag value + 1). |
| MainApp.CollectLogRowsSettled | main.go:66-77 | Every stored row carries one of the query's tags, and message == log, not blank. |
| MainApp.QueryDate | main.go:125-129 | The first `date` value, else today. |
| MainApp.RetrieveLog | main.go:102-137 | The deferred write holds the address of the response, so it writes the final one. A missing tag is 400 "missing tag". Otherwise `selectLog(tag, date, 100)` decides: 200 "OK" with its rows, or 500 with its error text. |
| MainApp.ReplyBody | main.go:111-118 | A marshalling failure writes the error text and a newline, as `http.Error` does. |
| WebSocket.AcceptQuery | websocket.go:74-125 | A query is dropped exactly when its data do not decode or its tag is blank. Otherwise it is fetched with tag, level, start and end from the query, and batch size MaxInt32. |
| WebSocket.Relay | websocket.go:86-116 | Only "logs" frames, at most one per message. |
| WebSocket.RelayForwardsOk | websocket.go:92-113 | Code-200 messages that marshal are forwarded one frame each, in order. |
| WebSocket.RelayStopsAtFirstFailure | websocket.go:93-97 | Nothing after the first non-200 message reaches the client. |
| WebSocket.RelayOfGetLog | websocket.go:86-116 | On a `GetLog` stream the relay forwards every batch and stops at the closing 204 or 500. |
| WebSocket.Step | websocket.go:57-133 | A non-text frame is skipped. An undecodable envelope stops the loop. At most one fetch per frame. |
| WebSocket.FetchStop | websocket.go:117-127 | Only a fetch that returns nil lets the loop read the next frame; an error, a panic or a block ends it. |
| WebSocket.Read | websocket.go:41-135 | Frames are handled in order; no frames ends the loop with nothing done. |
| WebSocket.ReadAppend | websocket.go:43-134 | A session that ends normally can be followed by more frames, and the two sessions' effects concatenate. |
| WebSocket.ReadEchoesPings | websocket.go:69-72 | Pings are echoed byte for byte, in order, and nothing is fetched. |
| WebSocket.ReadOneQuery | websocket.go:73-130 | A rejected query fetches and sends nothing. An accepted one is fetched once and relayed. The loop goes on exactly when the fetch returns nil, and a panicking fetch ends it as a panic. |
| WebSocket.ReadEndsAtFetchPanic | websocket.go:117-127 | A fetch that panics ends the session: what it pushed before the panic is relayed, and no later frame is handled. |
| WebInterface.StripPath | webinterface.go:14-18 | A path without a leading slash gets one; a single leading "/web" is removed; other rooted paths are unchanged. |
| WebInterface.WebInterface | webinterface.go:12-21 | The URL path is overwritten with the stripped path, and the file served is `filepath.Join(webRoot, path.Clean(upath))`, never empty. |
| WebInterface.ServedUnderRoot | webinterface.go:18-20 | A stripped path that stays rooted serves a file whose elements are webRoot's followed by the cleaned path's, with no "..". |
| WebInterface.StripWebLetters | webinterface.go:18 | "/web" is removed as letters: "/webx" becomes "x". |
| WebInterface.EscapesRoot | webinterface.go:18-20 | "/web../x" strips to "../x", and the path handed to `ServeFile` is "x", outside webRoot. |
| GoPath.Clean | webinterface.go:20 | `path.Clean` never returns the empty string. |
| GoPath.CleanIdempotent | webinterface.go:20 | Cleaning a clean path changes nothing. |
| GoPath.CleanRootedNoDotDot | webinterface.go:20 | A rooted path cleans to a rooted path with no ".." element. |
| GoPath.FileJoin | webinterface.go:20 | `filepath.Join` of two strings is empty exactly when both are. |

## Left out

- I/O is not modelled: HTTP reads and writes, WebSocket frame I/O, `sql.Open`/`Ping`/`QueryContext`/`Exec`/`Commit`, and the SQL engine that evaluates the query. Their outcomes are parameters.
- Goroutines, channels, the pool mutex, tickers, `time.After` and context cancellation are not modelled as concurrency. The reclaimer holds the pool lock forever and calls `Release`, which locks again (clickhouse/pool.go:75-76, 109). The relay's `Done` branch never exits its loop (websocket.go:90-91). When a fetch panics, the relay goroutine may still be sending when the handler's deferred `close(c.send)` runs (websocket.go:154-157, 179-182). All three are concurrency behaviour and are not modelled.
- The reclaimer's 100 ms timeout and `Close`'s 200 ms timeout become "the queue is empty", since all channel traffic happens under the mutex.
- `GetLog` reuses one buffer for every pushed batch (clickhouse/connection.go:76, 133). Batches are modelled as value copies.
- The id generator (`snowFlake`, `NextId`) is not part of this model. Ids are the parameter `ids`, with the k-th id drawn given.
- `LogLevelInt`/`LogLevelStr` are not part of this model. They are parameters.
- JSON decoding and encoding are partial-function parameters. `bufio.Scanner`'s 64 KiB token limit is not modelled.
- `time.Now()` is the parameter `today`/`now`. The local time zone is fixed to UTC.
- Strconv.ErrorText: states only the "strconv.<fn>: parsing " prefix. The quoting of unprintable characters by `strconv.Quote` is not modelled.
- `GetAllTags` (clickhouse/connection.go:25-49), `FindAllTag` and `Driver.Close` (driver_clickhouse.go:116-135) are database round-trips or one-line delegations. The tag list and the history lookup are parameters of the read handlers.
- The older pool in db_clickhouse.go (lines 48-199) and its database functions `insert`, `selectAppHistories`, `selectDistinctApplication` and the query execution in `selectLogWithOpt` (lines 277-374, 446-487) are not modelled. The handlers in api.go see that pool's `acquire` only through its outcome.
- In driver_clickhouse.go, `c == nil` after a successful acquire (lines 91-93, 143-145) cannot happen in the model. Line 158 of clickhouse/pool.go dereferences the connection first, so a nil one panics there. The api.go handlers use the older pool, whose nil connection is kept as an outcome.
- `http.ServeFile`'s own refusal of request paths containing ".." happens after the stripped path is written back, and is not modelled. WebInterface.EscapesRoot states only the path handed to it.
- `DoesFileExist` (core/utils.go:18-33), core/config.go, vars.go, arguments.go, specs.go, core/driver.go, cluster.go, api_output.go and db_query.go are not part of this model: they are file system access, globals, types or stubs.
- The `read` loop's read limit and deadline (websocket.go:42-48), and the upgrade and writer goroutine (websocket.go:137-185), are frame I/O.
- Api.HistoryValue: lengths and slices count code points, where Go's `len` and `v[0:4]` count bytes. A key such as "é234567" (seven code points, eight bytes) panics in the model but is formatted by Go.
- Api.HistoryRows: its panic test inherits `HistoryValue`'s code-point length, not Go's byte length.
- Api.TagHistoryResponse: its panicked flag inherits `HistoryRows`' code-point length test.
- Api.BuildEntry: api.go:90 assigns the `string` field `ContainerName` of api.go:25 to the `*string` field of `LogEntry` (db_clickhouse.go:37), so api.go's `collectLog` does not type-check. The model reads it as `&inputLog.ContainerName`, a present container name equal to the record's, and does not model the compile error.
- Connection.GetLog: `make([]OutputLogPayload, opt.BatchSize)` (clickhouse/connection.go:76) is taken to succeed for every non-negative size. The WebSocket query passes `math.MaxInt32` (websocket.go:123), which asks for 2^31 − 1 payload structs, well over a hundred gigabytes, before any row is read. On an ordinary host Go stops the process with a fatal out-of-memory error that cannot be recovered. Host memory is not modelled, so `WebSocket.Read` is not shown to end that way.
- Pool.ReclaimClosesExpiredRun: stated for a queue that holds no connection twice. The as-written `Acquire` can queue one twice (see "## Findings"), and then a close through the first entry also changes the second. The corrected pool keeps queues without repeats (`AcquireFixedExclusive`, `ReleaseKeepsDistinct`).
- Pool.ReclaimRotatesFirstFresh: stated for a queue that holds no connection twice, for the same reason.
- Pool.Acquire: "the wait timed out" is decided by the state (an empty queue), not chosen freely; see the modelling choices above.

## Findings

| source | as written | input that shows it | evidently intended | confidence | as-written member | corrected member |
|---|---|---|---|---|---|---|
| clickhouse/pool.go:133, 155-156 | On an empty pool, `AcquireWithTimeout` calls `openConnection`, which enqueues the new connection and counts it as idle, and then also returns it. Stamps and closes by either holder reach the same object. | An open pool with no idle connection and a successful dial; the next `Acquire` returns the same connection to a second caller. With `maxActive` 1 the first holder's `Release` closes it, and the next `Acquire` hands out the closed connection. | The opened connection is handed out without being enqueued. | not executed | Pool.AcquireHandsOutIdleConnection | Pool.AcquireFixedExclusive |
| driver_clickhouse.go:108-109 | The context keys and values come from two separate `range` loops over the map, whose orders Go does not relate. | Context {a:1, b:2}, with `Keys()` visiting a, b and `Values()` visiting b, a: `GetLog` rebuilds {a:2, b:1}. | Each key is stored next to its own value. | not executed | Driver.StoredContextMayScramble | Driver.PairedContextRoundTrip |
| api.go:183, 218, 271 | `defer writeResponse(w, response)` evaluates `response` when the defer runs, so the initial {200, "OK"} with no data is written. | A `retrieveLog` request without a tag: the handler sets 400 "missing tag" and the client receives 200 "OK". | The response as the handler leaves it, as main.go does by capturing `&logs`. | not executed | Api.RetrieveLogHidesMissingTag | Api.RetrieveLogFixed |
| api.go:85-93 | `collectLog` in api.go never copies `Message` or `Level` into the entry, although it filtered on a non-blank message. | One line decoding to message "hello", level "info": the stored row has an empty message and level. | Message and level are stored with the row. | not executed | Api.CollectLogDropsHello | Api.CollectLogFixed |
| db_clickhouse.go:392-402 | The grep clause has one "?" per grep, but the greps are appended as one slice argument. | Greps ["a", "b"] with no container filters: six placeholders, five arguments. | One argument per grep. | not executed | DbClickhouse.SelectLogQueryMiscounts | DbClickhouse.SelectLogQueryFixed |

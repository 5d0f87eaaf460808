# ChronoWave trace store and time-window injection, modelled in Dafny

This project models two pieces of the ChronoWave integrations.

- **The Jaeger storage plugin's span store** (`jaeger/store.go`). It covers five parts:
  - the SSQL query builder for trace searches;
  - the two-phase `FindTraces` (trace IDs first, then their spans, grouped into traces);
  - `GetTrace` and `FindTraceIDs`, where conversion is all-or-nothing;
  - the dependency-link inference in `GetDependencies`;
  - the in-memory service → operations index behind `GetServices` and `GetOperations`.
- **The Grafana data source's `modifyTimeframe`** (`grafana/pkg/chronowave.go`). It splices a `[path timeframe(from,to)]` clause into a raw query after the first case-insensitive `" where "`, unless the query already names a timeframe or a key.

The storage engine is modelled only by what the store sees of it (`Store.Engine`): each query text yields an error or a decoded list of rows, and appending a span yields an error or nothing. The dbmodel converters and `TraceIDFromString` are function parameters that may fail. Every reading of the current time is an explicit parameter in Unix nanoseconds; the service query, which reads the clock twice, takes two. The one-time bootstrap of the service index is a boolean field.

The modules follow the source:

| file | module | models |
|---|---|---|
| `wrappers.dfy` | `Wrappers` | `Option`, `Result` and the error values |
| `text.dfy` | `Text` | ASCII lower-casing, `strings.Index`/`Contains`, `strconv.FormatInt`, Go's truncating `/1000`, the `TIMEFRAME(min,max)` text |
| `timeframe.dfy` | `Timeframe` | `modifyTimeframe` (pure) |
| `trace_query.dfy` | `TraceQuery` | `buildTraceIdQuery`, the span-fetch `IN(...)` query and the `GetTrace` key query |
| `traces.dfy` | `Traces` | converting span rows (abort-on-error and drop-on-error) and grouping by trace ID |
| `dependencies.dfy` | `Dependencies` | the span index, parent lookup and link accumulation of `GetDependencies` |
| `service_index.dfy` | `ServiceIndex` | the service → operations map, the bootstrap query and its merge |
| `store.dfy` | `Store` | the `WaveRider` class: its state, and the methods of the span writer and span reader |

Go map iteration order is modelled in two ways.

- Tag clauses are emitted in whatever order the tag map is visited. `BuildTraceIdQuery` therefore takes that order as a parameter: any sequence listing each tag key once (`TraceQuery.IsTagOrder`).
- `GetServices`, `GetOperations` and `FindTraces` list map contents. For these, `ServiceIndex.Enumerate` picks an arbitrary order, and the contracts state the result as a set, with no element repeated.

Where the code and its documentation disagree, the model follows the code.

- `GetTrace` is documented to return `ErrTraceNotFound` when there are no spans. The code returns an empty trace and no error (see Findings).
- Names, tag keys and tag values are embedded in the query without escaping. `TraceQuery.NamesAreNotEscaped` shows this for a service name.
- The tag clause contains a doubled space (`[/key  CONTAIN('`), exactly as the code writes it.
- `FindTraceIDs` does not apply `NumTraces`.

## Model

| member | source | states |
|---|---|---|
| Text.ToLower | grafana/pkg/chronowave.go:247 | same length; every character is lower-cased, ASCII only |
| Text.IndexOf | grafana/pkg/chronowave.go:251 | -1 when the pattern does not occur, otherwise the first index at which it occurs |
| Text.ToMicros | jaeger/store.go:364 | Go's `UnixNano()/1000`: the quotient truncated toward zero, for both signs |
| Text.ToMicrosShift | jaeger/store.go:330-332 | at or after the epoch, going back a whole number of microseconds lowers the truncated value by exactly that number |
| Text.FormatIntRoundTrip | jaeger/store.go:372-374 | the decimal text of every integer parses back to that integer |
| Text.WindowReadsBack | jaeger/store.go:371-375 | the two bounds written as `min,max)]` after any head read back as exactly `(min, max)` |
| Timeframe.ModifyTimeframe | grafana/pkg/chronowave.go:246-260 | the function itself; its behaviour is stated by the Timeframe lemmas below |
| Timeframe.KeepsQueryWithWindow | grafana/pkg/chronowave.go:247-250 | a query whose lower-cased text contains " timeframe" or " key" is returned unchanged |
| Timeframe.KeepsQueryWithoutWhere | grafana/pkg/chronowave.go:251-254 | with no " where ", or only one at index 0, the query is returned unchanged |
| Timeframe.SplicesAfterFirstWhere | grafana/pkg/chronowave.go:251-259 | otherwise the clause is inserted right after the first case-insensitive " where " |
| Timeframe.SpliceShape | grafana/pkg/chronowave.go:246-260 | a changed query is the original plus exactly the clause, at the splice point; prefix and suffix keep their case; cutting the clause out gives back the original |
| Timeframe.ClauseBounds | grafana/pkg/chronowave.go:258-259 | the clause's bounds are the decimal microseconds of `From` and `To` |
| Timeframe.InjectionIsFinal | grafana/pkg/chronowave.go:246-260 | injecting into an already-injected query changes nothing, whatever the second window |
| TraceQuery.Plan | jaeger/store.go:361-419 | the window and the filters the builder writes; stated by WindowBounds, NameClauses, DurationClause and TagClauses |
| TraceQuery.Render | jaeger/store.go:370-421 | the text of a plan; stated by RenderShape and RenderedWindow |
| TraceQuery.BuildTraceIdQuery | jaeger/store.go:361-424 | the built query is the rendering of the plan; the returned min and max are the plan's window |
| TraceQuery.AppendNameClauses | jaeger/store.go:377-387 | appends the service clause iff a service is named, then the operation clause iff an operation is named |
| TraceQuery.AppendDurationClause | jaeger/store.go:389-404 | appends exactly the rendering of the duration clauses |
| TraceQuery.AppendTagClauses | jaeger/store.go:406-419 | appends one nested tag clause per key, in visiting order |
| TraceQuery.WindowBounds | jaeger/store.go:362-368 | an unset bound is 0 or MaxInt64; a set bound is its nanoseconds truncated to microseconds; ordered bounds stay ordered |
| TraceQuery.RenderedWindow | jaeger/store.go:370-375 | the TIMEFRAME clause of the query carries exactly the returned min and max |
| TraceQuery.RenderShape | jaeger/store.go:371-421 | every trace-ID query starts with the `FIND $tid, $st WHERE ...` head and ends with `order-by $st desc` |
| TraceQuery.NameClauses | jaeger/store.go:377-387 | a service clause iff the service name is non-empty, an operation clause iff the operation name is non-empty, each carrying the name as given |
| TraceQuery.DurationClause | jaeger/store.go:389-404 | at most one duration clause: BETWEEN when both durations are non-zero, else GE when the minimum is positive, else LE when the maximum is positive, with microsecond values |
| TraceQuery.TagClauses | jaeger/store.go:406-419 | exactly one tag clause per tag entry, carrying that entry's key and value, and no others |
| TraceQuery.NamesAreNotEscaped | jaeger/store.go:377-387 | names are embedded verbatim: a crafted service name yields the same query as a service plus an operation |
| TraceQuery.SpanFetchQuery | jaeger/store.go:183-198 | the second FindTraces query; stated by SpanFetchWindow and QuotedListRoundTrip |
| TraceQuery.BuildSpanFetchQuery | jaeger/store.go:183-198 | the second FindTraces query, built with the leading-comma loop, is the head, the window and the quoted ID list |
| TraceQuery.SpanFetchWindow | jaeger/store.go:184-188 | the second query reuses the trace-ID query's min and max |
| TraceQuery.QuotedListRoundTrip | jaeger/store.go:190-198 | for IDs without a quote, the IN list reads back as exactly the given IDs in order |
| TraceQuery.TraceKeyQuery | jaeger/store.go:102-105 | the GetTrace key query; stated by TraceKeyRoundTrip |
| TraceQuery.TraceKeyRoundTrip | jaeger/store.go:102-105 | the key query reads back as the requested trace ID when it holds no quote |
| Traces.ConvertAll | jaeger/store.go:117-122 | abort-on-first-failure conversion; stated by ConvertAllSpec |
| Traces.ConvertAllSpec | jaeger/store.go:117-122 | conversion succeeds iff every row converts, and then yields one span per row in order; otherwise the first failing row's error |
| Traces.ConvertEach | jaeger/store.go:117-122 | the conversion loop, which returns on the first failure, yields exactly ConvertAll of the rows |
| Traces.Converted | jaeger/store.go:211-214 | drop-on-failure conversion; stated by ConvertedMembers |
| Traces.ConvertedMembers | jaeger/store.go:211-214 | dropping failures keeps exactly the values some row converts to, and never more values than rows |
| Traces.Group | jaeger/store.go:211-223 | the trace-ID map of FindTraces; stated by GroupSpec |
| Traces.GroupSpec | jaeger/store.go:211-223 | there is a group for exactly the trace IDs that occur; each group is non-empty and holds exactly that trace's spans, in order |
| Dependencies.DependencyQuery | jaeger/store.go:264-270 | the dependency query; stated by DependencyQueryWindow |
| Dependencies.DependencyQueryWindow | jaeger/store.go:264-270 | the query's window runs from end - lookback to end, in microseconds, and is ordered for a non-negative lookback |
| Dependencies.SpanIndex | jaeger/store.go:287-290 | every row's span ID is indexed; the index points to a row carrying that ID, at or after every other such row (the last row wins) |
| Dependencies.BuildSpanIndex | jaeger/store.go:287-290 | the span-map loop builds that index |
| Dependencies.ParentId | jaeger/store.go:295-300 | "" without a CHILD_OF reference, otherwise the span ID of the last CHILD_OF reference |
| Dependencies.FindParent | jaeger/store.go:295-300 | the reference loop computes that parent ID |
| Dependencies.ParentEdge | jaeger/store.go:301-308 | a row records a call iff its parent ID is non-empty and indexed, and the parent row's service differs from its own; the call goes from the service of the last row carrying the parent ID to the row's service |
| Dependencies.Step | jaeger/store.go:309-320 | one row's effect on the links and the key map; keeps the key map and the links consistent |
| Dependencies.FoldLinks | jaeger/store.go:287-321 | the links after a prefix of the rows; keeps the key map and the links consistent; stated further by FoldKeyed |
| Dependencies.TextKey | jaeger/store.go:309 | the code's `parent&&&child` key; stated by TextKeyInjective and TextKeyMergesCalls |
| Dependencies.Links | jaeger/store.go:287-321 | the links under the code's key; stated by LinksSpecAnyServices and LinksSpec |
| Dependencies.InferLinks | jaeger/store.go:287-321 | the loops produce the accumulated links for the given key (the code's key is `Dependencies.TextKey`) |
| Dependencies.CountCall | jaeger/store.go:309-320 | a new key appends a link with one call and maps the key to its index; a known key's link counts one more call |
| Dependencies.FoldKeyed | jaeger/store.go:309-320 | for any key: each key indexes exactly one link, every count is at least 1, every link is a recorded call, and the counts add up to the number of calls |
| Dependencies.LinksSpecAnyServices | jaeger/store.go:309-320 | the code's links have distinct keys, counts of at least 1 and no same-service link; the counts add up to the number of contributing rows, which is at most the number of rows |
| Dependencies.LinksSpec | jaeger/store.go:309-320 | when no service name holds '&', the code's links are one per distinct call, in first-call order, with the number of calls |
| Dependencies.ReferenceLinksSpec | jaeger/store.go:309-320 | the reference links list each distinct call once, with a count of at least 1 equal to the number of its calls |
| Dependencies.TextKeyInjective | jaeger/store.go:309 | the `&&&` key separates names that hold no '&' |
| Dependencies.TextKeyMergesCalls | jaeger/store.go:309-319 | two distinct calls whose names differ only in where an '&' sits are merged into one link with two calls |
| Dependencies.CorrectLinksSpec | jaeger/store.go:309-320 | keyed by the (parent, child) pair, the links are one per distinct call, in first-call order, with the number of calls |
| ServiceIndex.Record | jaeger/store.go:86-96 | the service gains the operation, all recorded pairs are kept, and no other service changes |
| ServiceIndex.RecordIdempotent | jaeger/store.go:95 | recording a pair a second time changes nothing |
| ServiceIndex.RecordCommutes | jaeger/store.go:86-96 | the index does not depend on the order in which pairs are recorded |
| ServiceIndex.MergeRows | jaeger/store.go:351-358 | the merge loop of the service query; stated by MergeRowsSpec |
| ServiceIndex.MergeRowsSpec | jaeger/store.go:351-358 | after the merge the services are the old ones plus those of the rows, and each service's operations are the old ones plus those the rows name |
| ServiceIndex.ServiceQuery | jaeger/store.go:327-333 | the bootstrap query, built from two clock readings; stated by ServiceQueryWindow |
| ServiceIndex.ServiceQueryWindow | jaeger/store.go:327-333 | the window starts 336 hours before the first clock reading and ends at the second; after the epoch it spans at least 336 hours in microseconds when the clock has not stepped back, and exactly 336 hours when both readings are the same instant |
| ServiceIndex.Enumerate | jaeger/store.go:132-137 | lists the keys of a map, each once and nothing else |
| Store.Truncate | jaeger/store.go:179-181 | keeps the first NumTraces IDs, in their original order |
| Store.WaveRider.constructor | jaeger/store.go:57-67 | a new store has an empty service index and is not bootstrapped |
| Store.WaveRider.WriteSpan | jaeger/store.go:74-84 | the span's pair is recorded in the index whether or not the engine write fails; the result is the engine's error |
| Store.WaveRider.UpdateSvcOp | jaeger/store.go:86-96 | the index becomes `Record` of the old index and the span's pair |
| Store.WaveRider.RecordOperation | jaeger/store.go:89-95 | creates the service's set when it is new and adds the operation: the index becomes `Record` of the old one |
| Store.WaveRider.AfterServiceQuery | jaeger/store.go:335-358 | the index after the service query: unchanged on an engine or decoding error, otherwise merged with the rows; QueryService is proved to compute it |
| Store.WaveRider.QueryService | jaeger/store.go:326-359 | a failed query leaves the index as it was; otherwise every returned row is merged in |
| Store.WaveRider.Bootstrap | jaeger/store.go:130 | only the first read runs the service query |
| Store.WaveRider.GetServices | jaeger/store.go:129-140 | after the bootstrap, lists each indexed service once |
| Store.WaveRider.GetOperations | jaeger/store.go:144-159 | after the bootstrap, lists each operation indexed for the service once; none for an unknown service |
| Store.WaveRider.StoredTrace | jaeger/store.go:101-125 | what GetTrace returns; stated by StoredTraceSpec |
| Store.WaveRider.StoredTraceSpec | jaeger/store.go:101-125 | a trace is read iff the query succeeds and every span converts; it then has one span per row, in order; no rows reads as an empty trace |
| Store.WaveRider.GetTrace | jaeger/store.go:101-125 | the build-query, decode and abort-on-first-failure loop yields `StoredTrace` |
| Store.WaveRider.GetTraceChecked | jaeger/store.go:98-100 | as documented: no stored spans gives TraceNotFound, and a trace that is returned is non-empty |
| Store.WaveRider.FindTraces | jaeger/store.go:167-234 | a failed ID query fails; no IDs gives no traces; otherwise the first NumTraces IDs are fetched in the same window, and the result lists each group of converted spans as one trace |
| Store.WaveRider.GroupConverted | jaeger/store.go:211-223 | the grouping loop drops spans that fail to convert and groups the rest by trace ID |
| Store.WaveRider.ListTraces | jaeger/store.go:225-231 | one trace per group, and nothing else |
| Store.WaveRider.FindTraceIDs | jaeger/store.go:240-261 | a failed ID query fails; no IDs gives no IDs; otherwise every ID is parsed and the first failure aborts |
| Store.WaveRider.GetDependencies | jaeger/store.go:263-324 | the engine's error, or the links accumulated with the code's text key |
| Store.WaveRider.GetDependenciesByPair | jaeger/store.go:263-324 | the engine's error, or one link per distinct (parent, child) call, in first-call order, with its count |

## Left out

- Engine I/O (`stream.Query`, `stream.OnNewDocument`, `embed.NewWave`) and JSON encoding and decoding: each query plus its decoding is one function parameter of `Store.Engine`.
- The dbmodel converters (`SpanToDomain`, `FromDomainEmbedProcess`) and `model.TraceIDFromString`: these are function parameters. The text form `TraceID.String()` is taken to be part of the converted span.
- `Traces.Span` keeps only the fields the store reads; the rest of the domain span does not matter to this code.
- Concurrency: `sync.Once` is the `bootstrapped` flag; `sync.RWMutex` and the unlocked map read in `GetServices` are not modelled.
- `time.Now()` and `time.Time`/`time.Duration` values: these are integer nanosecond parameters.
- ServiceIndex.ServiceQueryWindow: the 336-hour lower bound is stated only when the second clock reading is not earlier than the first; Go's wall clock may step back between the two readings, and then the window can be shorter.
- The engine's contents: `Store.Engine` answers each query text with a fixed result, so the model does not capture that a `WriteSpan` changes what later reads return.
- Store.WaveRider.FindTraces: requires NumTraces >= 0, because the slice `rs[:NumTraces]` panics on a negative count. Results from Go map iteration are stated as sets, not in a particular order.
- GetOperations returns operation names only. The span kind in the request and in the result is not modelled.
- int64 overflow: the model does not capture it. `ToMicros` works on unbounded integers, and so does `end - lookback` in the dependency query.
- Unicode: `strings.ToLower` is modelled for ASCII letters only.
- The rest of `grafana/pkg/chronowave.go`: SSQL parsing, data-frame building, HTTP requests and health checks.
- Plumbing that is not part of this model: jaeger/rest.go, jaeger/main.go, jaeger/config.go, grafana/Magefile.go and the front-end sources. The cwPlugin accessors and `Close` have no logic.
- Dependencies.LinksSpec: first-call order is stated only for services without '&'. For any services, `Dependencies.LinksSpecAnyServices` states the unique keys, the counts and the total.

## Findings

| source | as written | input that shows it | evidently intended | confidence | as-written member | corrected member |
|---|---|---|---|---|---|---|
| jaeger/store.go:98-125 | when the key query returns no rows, GetTrace returns an empty trace and no error | the engine returns no rows for the trace's key query | return ErrTraceNotFound, as the doc comment at lines 98-100 says | high (not executed) | Store.WaveRider.StoredTraceSpec | Store.WaveRider.GetTraceChecked |
| jaeger/store.go:309 | links are keyed by `parent + "&&&" + child`, so distinct pairs can share a key | services "x&" → "y" and "x" → "&y" both key `x&&&&y`: this gives one link with two calls where there are two links with one call each | one link per distinct (parent, child) pair | medium (not executed) | Dependencies.TextKeyMergesCalls | Store.WaveRider.GetDependenciesByPair |

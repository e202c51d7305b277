# DogStatsD client core, modelled in Dafny

This project models the core of the DogStatsD C# client:

- **The wire-format encoder in `MetricsSender`.** It turns a metric, an event or a service check into one protocol line. This covers:
  - the unit table, the sample-rate suffix and the tag suffix;
  - the escaping of line breaks and of the service-check `m:` marker;
  - the pipe check on service-check names;
  - the 8 KiB cap with its truncate-and-retry paths.
- **The sender's own state:** its constant tags, the `Commands` batch list, and what it hands to the bufferize component and to telemetry.
- **`StatsBufferize` and its `WorkerHandler`:** the reject-and-release rule and the idle timer.
- **`StatsdData`:** ordered flushing and ordered, repeatable disposal.
- **`SerializedMetric`:** the bounded copy into a character buffer.
- **`DogStatsdEndPoint.AreEquals`.**

The encoders are pure functions over strings. A `string` element stands for one character of a .NET string. For text within the Basic Multilingual Plane that is one UTF-16 code unit, so every length and the size cap count .NET `string.Length` units, as the source does. Text holding a character outside that plane is out of scope (see "Left out"). A C# `null` is `None` of an `Option`. An exception thrown by an encoder is a `Failure` of a `Result`, or a `Fail` of an `Outcome` once it reaches a `Send` method.

The classes whose fields the source updates (`MetricsSender`, `WorkerHandler`, `StatsBufferize`, `StatsdData`, `SerializedMetric`) are Dafny classes. Their methods carry `modifies` clauses. The components they call are logs: what reaches the bufferize component, telemetry, the worker, the router and a record's `Dispose` is appended to a sequence field.

Modules, one per component:

- `Wrappers`: `Option`, `Result` and `Outcome`.
- `Text`: the .NET string operations used, with their partners:
  - `String.Replace` with a one-character reference definition;
  - `String.Join` with `Split`;
  - integer formatting with `ParseNat`.
- `Encoding`: the size cap, the encoder exceptions, `TruncateOverage`, `ConcatTags` and the constant-tag list.
- `Escaping`: `EscapeContent` and `EscapeMessage`.
- `MetricFormat`, `EventFormat` and `ServiceCheckFormat`: the three line encoders.
- `Sending`: the `MetricsSender` class.
- `Bufferize`: `StatsBufferize` and `WorkerHandler`.
- `Lifecycle`: `StatsdData`.
- `Serialization`: `SerializedMetric`.
- `EndPoints`: `DogStatsdEndPoint`.

Paths below are relative to the repository root.

## Model

| member | source | states |
|---|---|---|
| Text.Replace | src/StatsdClient/MetricsSender.cs:131-133 | `String.Replace` of a non-empty pattern: every character of the result comes from the input or from the replacement. Its partners `ReplaceSingleChar` and `ReplaceMarkerByChar` pin the result down for the patterns the client uses |
| Text.IntToStringParses | src/StatsdClient/MetricsSender.cs:308 | A culture-invariant integer holds no `\|` and parses back to its value: its digits give the value, after a minus sign when it is negative |
| Encoding.TruncateOverage | src/StatsdClient/MetricsSender.cs:152-155 | The call succeeds iff the overage is at most the length. It then returns the prefix exactly `overage` shorter; otherwise it fails as `Substring` does |
| Encoding.ConcatTags | src/StatsdClient/MetricsSender.cs:136-150 | Null lists read as empty. The suffix is empty iff both lists are empty; otherwise it is `\|#` then the constant tags and the call tags, comma-joined in that order |
| Encoding.ConcatTagsSplits | src/StatsdClient/MetricsSender.cs:136-150 | When no tag holds a comma, splitting the suffix after `\|#` on commas gives back exactly the constant tags followed by the call tags |
| Encoding.ConcatTagsWithoutConstants | src/StatsdClient/MetricsSender.cs:282 | Dropping the constant tags, as both truncating retries do, never lengthens the tag suffix |
| Encoding.ConstantTagsOf | src/StatsdClient/MetricsSender.cs:34-45 | The stored constant tags start with the given tags (null reads as none). They equal them when the entity id is null or empty; otherwise exactly one more tag, `dd.internal.entity_id:<id>`, comes last |
| Escaping.EscapeEach | src/StatsdClient/MetricsSender.cs:129-134 | Reference definition, one character at a time: CR is dropped, LF becomes `\` `n`, anything else is kept. The result holds no CR and no LF, and text without them is unchanged |
| Escaping.EscapeContent | src/StatsdClient/MetricsSender.cs:129-134 | The two chained `Replace` calls give exactly the per-character reference `EscapeEach` |
| Escaping.ReplaceMarkerRemovesMarkers | src/StatsdClient/MetricsSender.cs:366 | After `Replace("m:", "m\\:")` no `m:` is left in the string |
| Escaping.ReplaceMarkerByChar | src/StatsdClient/MetricsSender.cs:366 | `Replace("m:", "m\\:")` equals the per-character reference `EscapeMarkers`: a `:` right after an `m` becomes `\` `:`, every other character is kept |
| Escaping.EscapeMessage | src/StatsdClient/MetricsSender.cs:362-370 | Null stays null and the empty message stays empty. Any other message becomes exactly `EscapeMarkers(EscapeEach(message))`: line breaks escaped first, then each `:` after an `m` escaped. The result holds no CR, no LF and no `m:` |
| Escaping.EscapeMessageFixesPrefix | src/StatsdClient/MetricsSender.cs:342-343 | Escaping any prefix of an escaped message again leaves it unchanged; this is why the service-check retry does not escape twice |
| Escaping.EscapeMessageIdempotent | src/StatsdClient/MetricsSender.cs:362-370 | Escaping a message twice equals escaping it once |
| MetricFormat.UnitCode | src/StatsdClient/MetricsSender.cs:187-196 | Each unit code reads back, through the inverse table `MetricTypeOfUnit`, as the metric type it was written for |
| MetricFormat.UnitCodeInjective | src/StatsdClient/MetricsSender.cs:187-196 | No two metric types share a unit code |
| MetricFormat.SampleRateSuffix | src/StatsdClient/MetricsSender.cs:217 | The rate suffix is empty iff the sample rate is exactly 1.0; otherwise it is `\|@` followed by the rate text |
| MetricFormat.MetricCommand | src/StatsdClient/MetricsSender.cs:204-219 | The line is `<prefix><name>:<value>\|<unit>`, then the rate suffix, then the tag suffix, which ends the line. The rate suffix is absent iff the rate is 1.0, and the line is exactly that head iff the rate is 1.0 and there are no tags |
| MetricFormat.TaggedLine | src/StatsdClient/MetricsSender.cs:207-218 | At rate 1.0 with one constant tag and one call tag, the line is the head followed by `\|#<constant tag>,<call tag>`, for any metric type, name and value |
| MetricFormat.MetricTypeDeterminesLine | src/StatsdClient/MetricsSender.cs:207-218 | Two metric lines that differ only in the metric type are different lines |
| MetricFormat.CounterExample | src/StatsdClient/MetricsSender.cs:207-218 | A counter `app.` + `hits` with value `5` at rate 1.0 and no tags encodes as `app.hits:5\|c` |
| MetricFormat.SampledCounterExample | src/StatsdClient/MetricsSender.cs:217 | The same counter at rate 0.5 encodes as `app.hits:5\|c\|@0.5` |
| MetricFormat.TaggedCounterExample | src/StatsdClient/MetricsSender.cs:209 | With constant tag `env:prod` and call tag `host:a` the line ends in `\|#env:prod,host:a` |
| EventFormat.EventHeaderDecodes | src/StatsdClient/MetricsSender.cs:235 | The header `_e{<len>,<len>}:<title>\|<text>` decodes back to its title, text and trailing rest, whatever characters they hold, because the lengths count exactly the characters written |
| EventFormat.EventLine | src/StatsdClient/MetricsSender.cs:233-266 | The line starts with the header over the escaped title and text and ends with the tag suffix |
| EventFormat.EventLineDecodes | src/StatsdClient/MetricsSender.cs:233-266 | An event line is the header over the escaped title and text, followed by the optional fields in the order d, h, k, p, s, t and then the tags |
| EventFormat.EventCommand | src/StatsdClient/MetricsSender.cs:231-291 | A returned line is at most 8192 long. A line that fits is returned as built. When the line is too long: without truncation the call throws `EventTooBig` naming the title; with truncation any failure is the `Substring` range error, and that error occurs whenever the overage exceeds the length of the longer raw field |
| EventFormat.EventRetry | src/StatsdClient/MetricsSender.cs:268-283 | An oversize event that succeeds equals the call on a strictly shorter prefix of the title or the text, with truncation on and the constant tags dropped. The longer raw field (the text on a tie) is cut by exactly the overage and the other field is kept |
| EventFormat.RetryOnLonger | src/StatsdClient/MetricsSender.cs:268-283 | An oversize event with truncation on and an overage no larger than the longer raw field equals the truncating call without constant tags on that field (the text on a tie) cut to the prefix that the overage leaves |
| EventFormat.EventCommandShape | src/StatsdClient/MetricsSender.cs:268-290 | A successful event is the call's own line, or the line of shorter prefixes of the title and text with every optional field kept and no constant tags |
| ServiceCheckFormat.EscapeName | src/StatsdClient/MetricsSender.cs:350-360 | The name is accepted iff its escaped form holds no `\|`. The accepted value is the escaped name; otherwise the error is the pipe error |
| ServiceCheckFormat.ServiceCheckLine | src/StatsdClient/MetricsSender.cs:305-326 | The line starts with `_sc\|<name>\|`. Its length is the name and the middle fields plus 5, plus the message and its 3-character marker when there is a message, so cutting the message shortens the line by as much |
| ServiceCheckFormat.MiddleLayout | src/StatsdClient/MetricsSender.cs:308-320 | The part after the name opens with the status, followed by a `\|` or nothing, and closes with the tag suffix |
| ServiceCheckFormat.ServiceCheckStatusDecodes | src/StatsdClient/MetricsSender.cs:308 | After `_sc\|<name>\|` comes the formatted status, and it runs exactly up to the next `\|`, so it can be read back from the line |
| ServiceCheckFormat.ServiceCheckTagsBeforeMessage | src/StatsdClient/MetricsSender.cs:305-326 | Between `_sc\|<name>\|` and the message field, which ends the line, lies exactly the middle part: status, timestamp, host name and tags, in that order. The tag suffix comes directly before the message field |
| ServiceCheckFormat.MessageFieldIsLast | src/StatsdClient/MetricsSender.cs:322-326 | A line with a message ends with `\|m:<message>` |
| ServiceCheckFormat.RetryFits | src/StatsdClient/MetricsSender.cs:334-343 | Cutting the escaped message by the overage and dropping the constant tags gives a line within the cap. With no constant tags that line is exactly 8192 long |
| ServiceCheckFormat.ServiceCheckCommand | src/StatsdClient/MetricsSender.cs:303-347 | A returned line is at most 8192 long. A pipe in the escaped name fails first, and a line that fits is returned as built. When the line is too long: without truncation the call throws naming the name; with truncation it succeeds iff there is a message at least as long as the overage, and otherwise fails with the cannot-truncate error |
| ServiceCheckFormat.ServiceCheckTruncation | src/StatsdClient/MetricsSender.cs:328-344 | A truncated service check is the line with the escaped message cut to a prefix shorter by the overage and the constant tags dropped. Without constant tags it is exactly 8192 long |
| ServiceCheckFormat.ServiceCheckShape | src/StatsdClient/MetricsSender.cs:303-347 | A successful service check is a service-check line over the escaped name. It carries a message iff one was given, and that message is a prefix of the escaped message |
| ServiceCheckFormat.LineNameDecodes | src/StatsdClient/MetricsSender.cs:308 | In `_sc\|<name>\|...` with a pipe-free name, the first `\|` after `_sc\|` ends the name |
| ServiceCheckFormat.ServiceCheckNameDecodes | src/StatsdClient/MetricsSender.cs:305-308 | Every successful service-check line starts with `_sc\|`, and the text up to the next `\|` is the escaped name |
| ServiceCheckFormat.MessageMarkerIsLast | src/StatsdClient/MetricsSender.cs:322-326 | With a marker-free message appended last, the line ends in `\|m:<message>` and no `m:` follows the marker's own |
| ServiceCheckFormat.ServiceCheckMessageDecodes | src/StatsdClient/MetricsSender.cs:320-326 | In every successful service check with a message, the last `m:` is the marker, and what follows it is a prefix of the escaped message |
| Sending.BatchLine | src/StatsdClient/MetricsSender.cs:102-111 | A non-empty batch goes out as one line: the commands joined by line feeds, where a single command goes out as it is |
| Sending.BatchLineSplits | src/StatsdClient/MetricsSender.cs:110 | When no command holds a line feed, the batch line splits back into the commands in order |
| Sending.MetricsSender.constructor | src/StatsdClient/MetricsSender.cs:20-46 | The prefix is stored, and the constant tags are `ConstantTagsOf` the given tags and entity id. Truncation is off and the batch list is empty |
| Sending.MetricsSender.SetTruncateIfTooLong | src/StatsdClient/MetricsSender.cs:48 | The setting takes the given value, and the batch list, the lines handed on and telemetry are unchanged |
| Sending.MetricsSender.SendCommand | src/StatsdClient/MetricsSender.cs:84-100 | The batch list ends up empty and the line is appended to what the bufferize component received; nothing else changes |
| Sending.MetricsSender.SendBatch | src/StatsdClient/MetricsSender.cs:102-111 | An empty batch sends nothing. Otherwise exactly one line, the commands joined by line feeds, is handed on and the list is emptied |
| Sending.MetricsSender.SendEvent | src/StatsdClient/MetricsSender.cs:60-65 | Truncation is the argument or the sender's setting. An encoder error propagates with nothing sent and no telemetry. Otherwise the encoded line is handed on, then the event counter is bumped if telemetry is present |
| Sending.MetricsSender.SendServiceCheck | src/StatsdClient/MetricsSender.cs:67-72 | The same as `SendEvent`, for the service-check encoder and its counter |
| Sending.MetricsSender.SendMetric | src/StatsdClient/MetricsSender.cs:74-82 | When sampling says send, the metric line with the constant tags is handed on and the metric counter is bumped; otherwise nothing changes |
| Sending.MetricsSender.SendTimed | src/StatsdClient/MetricsSender.cs:113-127 | When sampling says send, the elapsed milliseconds go out as a timing metric under the given name with the constant tags, the metric counter is bumped and the batch list is emptied. Otherwise nothing changes |
| Bufferize.IdleStep | src/StatsdClient/Bufferize/StatsBufferize.cs:74-89 | A poll starts the timer only when none runs and keeps a running one. It fires iff the time since the start strictly exceeds the maximum wait |
| Bufferize.IdleKeepsFiring | src/StatsdClient/Bufferize/StatsBufferize.cs:76-86 | The first poll after a value never fires for a non-negative wait. Once a poll fires, every later poll fires too and the start is unchanged |
| Bufferize.WorkerHandler.constructor | src/StatsdClient/Bufferize/StatsBufferize.cs:59-63 | The maximum idle wait is stored, no stopwatch runs, and nothing has been routed or disposed |
| Bufferize.WorkerHandler.OnNewValue | src/StatsdClient/Bufferize/StatsBufferize.cs:65-72 | The record is routed and disposed on every path. The timer is cleared iff `Route` returns; a throwing `Route` leaves it as it was and fails |
| Bufferize.WorkerHandler.OnIdle | src/StatsdClient/Bufferize/StatsBufferize.cs:74-89 | It always returns true, the timer follows `IdleStep`, and the router's idle call is made iff `IdleStep` fires |
| Bufferize.WorkerHandler.Flush | src/StatsdClient/Bufferize/StatsBufferize.cs:91-94 | It forwards one flush to the router and nothing else |
| Bufferize.Enqueued | src/StatsdClient/Bufferize/StatsBufferize.cs:32-41 | A record is among the queued records iff an enqueue of it is among the worker calls |
| Bufferize.EnqueuedAppend | src/StatsdClient/Bufferize/StatsBufferize.cs:32-41 | Appending a worker call adds its record to the queued records iff it is an enqueue |
| Bufferize.StatsBufferize.constructor | src/StatsdClient/Bufferize/StatsBufferize.cs:15-30 | A fresh handler with the given idle wait, and no worker call, release or record sent; no record is lost so far |
| Bufferize.StatsBufferize.Send | src/StatsdClient/Bufferize/StatsBufferize.cs:32-41 | The result is the worker's accept decision. An accepted record is queued and not disposed; a refused one is disposed. No record is lost: every record sent is queued or released |
| Bufferize.StatsBufferize.Flush | src/StatsdClient/Bufferize/StatsBufferize.cs:43-46 | It forwards one flush to the worker and nothing else |
| Bufferize.StatsBufferize.Dispose | src/StatsdClient/Bufferize/StatsBufferize.cs:48-51 | It forwards one dispose to the worker and nothing else |
| Lifecycle.DisposeOrder | src/StatsdClient/StatsdData.cs:38-45 | `Dispose` makes only dispose calls. Each component still set is disposed exactly once, telemetry before bufferize before transport; with nothing set there is no call |
| Lifecycle.StatsdData.constructor | src/StatsdClient/StatsdData.cs:12-22 | The sender and the presence of telemetry, the bufferize component and the transport are stored as given, and no call has been made |
| Lifecycle.StatsdData.Flush | src/StatsdClient/StatsdData.cs:28-32 | Bufferize, if present, is flushed strictly before telemetry. Without telemetry the call fails after the bufferize flush |
| Lifecycle.StatsdData.Dispose | src/StatsdClient/StatsdData.cs:34-48 | It makes the calls of `DisposeCalls` for the components present, in order, and clears all four references |
| Lifecycle.DisposeTwice | src/StatsdClient/StatsdData.cs:38-45 | A second `Dispose` makes no call and fails nothing |
| Lifecycle.FlushAfterDispose | src/StatsdClient/StatsdData.cs:30-31 | After `Dispose`, `Flush` fails on the missing telemetry and makes no call |
| Serialization.SerializedMetric.constructor | src/StatsdClient/SerializedMetric.cs:7 | The builder starts empty |
| Serialization.SerializedMetric.CopyToChars | src/StatsdClient/SerializedMetric.cs:9-19 | When the contents do not fit, it returns -1 and the buffer is unchanged. Otherwise it returns their length, the buffer's front holds them, and the rest of the buffer is unchanged |
| Serialization.SerializedMetric.ToString | src/StatsdClient/SerializedMetric.cs:21-24 | It returns exactly the builder contents |
| Serialization.SerializedMetric.Reset | src/StatsdClient/SerializedMetric.cs:26-29 | The builder is empty afterwards |
| Serialization.CopyAfterReset | src/StatsdClient/SerializedMetric.cs:26-29 | After `Reset`, `CopyToChars` returns 0 for any buffer and leaves it unchanged |
| EndPoints.AreEquals | src/StatsdClient/DogStatsdEndPoint.cs:28-34 | True iff the other endpoint is non-null and agrees on server name, port and pipe name, that is, it is the same value |
| EndPoints.AreEqualsIsEquivalence | src/StatsdClient/DogStatsdEndPoint.cs:28-34 | It is false for null, reflexive, symmetric and transitive |

## Left out

- The `AsynchronousWorker` queue, its consumer thread and its waiter are not part of this model. Its `TryEnqueue` answer is a parameter of `StatsBufferize.Send`. Worker flush and dispose are log entries, so concurrency and delivery order are not modelled.
- The stopwatch and the random sampling are parameters:
  - a clock reading for `OnIdle`;
  - the elapsed milliseconds for the timed send;
  - a `shouldSend` flag for sampling.
  The idle threshold is a whole number of milliseconds; the source compares with a `double`.
- Culture-invariant formatting of the generic metric value and of the `double` sample rate is not modelled. Both arrive as text, with a flag for "exactly 1.0". Integers (status, timestamps, lengths) are formatted in decimal.
- The entity id, read from an environment variable in the constructor, is a constructor parameter.
- `Send(string)` swallows bufferize exceptions and writes them to the debug output. The model only records that the line was handed on and that nothing propagates.
- `Send(string)` passes a `string` where `StatsBufferize.Send` takes a `Stats` record. The model forwards the line to a log and does not connect the sender to `StatsBufferize`.
- Telemetry, the transport and the `StatsRouter` are not part of this model. They appear only as presence flags and call logs.
- Sending.MetricsSender.SendTimed: the timed action is not run, and an exception from it (re-thrown after the timing metric is sent) is not modelled.
- The overloads without constant tags are modelled as `constantTags == None` in the encoders.
- Null titles, texts and service-check names are not modelled; the source would throw a `NullReferenceException`.
- A null element of a tag array is not a separate case: `string.Join` writes it as an empty string, and copying the constant tags does not look at the elements. The model covers it by passing `""` for that tag.
- Text holding any character outside the Basic Multilingual Plane (an emoji, say) is out of scope. .NET stores such a character as two UTF-16 code units and counts 2 for it in the size cap and in the `_e{<len>,<len>}` header. A Dafny `char` is a Unicode scalar value, so it cannot hold a surrogate code unit, and one Dafny `char` for that character would count 1. The model does not count UTF-16 lengths.
- Callers reach the `Commands` list and the `Builder` through getters. `AddCommand` and `Append` stand for those callers' additions.

Behaviour reproduced as written:

- The event header counts the lengths of the escaped title and text. For a title `T` and text `hello` LF `world`, the header is `_e{1,12}`, not `_e{1,11}` as the raw length would give.
- The cap counts UTF-16 code units (`string.Length`), not bytes. Within the modelled text, where every character is one code unit, this is the length of the Dafny string.
- An event retry can itself overflow and retry again. This happens when the removed characters were carriage returns, which escaping drops anyway, so the line did not get shorter by the overage. So there may be more than one retry.
- An event whose overage exceeds the length of its longer field fails with the `Substring` range error. This happens, for example, with very long tags.
- Both retries drop the constant tags.
- The service-check size errors are an exception naming the check, or an `ArgumentException` when there is no message or the escaped message is shorter than the overage.

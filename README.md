# Arduino serial extension: a Dafny model

This project models an extension that bridges serial-connected devices, typically Arduino boards, to a plotting host. It has three parts.

- **Reader.** Each connection's `SerialManager` reads lines from its port and strips them. Each line is decoded by up to three policies tried in a fixed order: a JSON record, a delimited (CSV) line, and a plain number. The reader puts one sample `{key, value, time}` on its data queue, or one error entry on its error queue.
- **Listener.** The `ArduinoQueueListener` runs two relay tasks per connection. One drains the data queue and one the error queue, each until a `None` sentinel arrives.
- **Runner.** The `ArduinoExtensionRunner` opens connections from the submitted connection form and numbers them. It publishes each connection's keys under a unique name (`key` for the first connection, `key[i]` for connection `i`). It delivers every sample to the handlers subscribed to its base key and to its unique name.

The model has one module per concern:

- `Wrappers`: `Option`.
- `Text`: the string routines the Python code relies on. These are `strip`, `split`, `upper`, `int(str)` and `str(int)`, with their round trips. `Text.Join` is not a routine the code calls; it serves only to state that splitting loses nothing.
- `FormInputs`: the `FormInput` record and its defaults.
- `Forms`: `form_dict_to_input` and `safe_int`, on a value type for the JSON form payload.
- `SerialDecode`: the decoding policies, the rule that combines them, and the reader run over a sequence of read outcomes, all as functions.
- `Serial`: the `SerialManager` class. Its read loop is an imperative method with the two queues as fields, proved against `SerialDecode.Run`.
- `Listener`: the listener's task map as a class with `Listen` and `Stop`, and the relay loop as a method proved against the function `Drained`.
- `Registry`: subscriptions, unique names, signal registration and the delivery list, as values.
- `Runner`: the `ExtensionRunner` class, whose methods update its fields and are proved against the `Registry` definitions.

Behaviour of the code that the model makes explicit:

- A JSON syntax error does not end the handling of a line. The CSV and line policies still run, and the last error reported replaces the earlier one (`SerialDecode.JsonSyntaxErrorFallsThrough`).
- A line that is valid JSON but not an object, such as a bare number, raises an `AttributeError` that nothing catches. With JSON on, this ends the reader task (`SerialDecode.NonObjectJsonEndsReader`).
- A CSV column index below `-len(parts)` raises an uncaught `IndexError`, with the same effect. Negative indices otherwise follow Python's indexing.
- An exception raised in a listener's handler is not caught, so it ends that relay task (`Listener.Drained`). In `data_handler`, by contrast, a failing subscriber is passed over.
- Subscribing the same handler twice stores it twice. `unsubscribe` removes one occurrence, the first.
- Unique names are not unique across keys: key `t[1]` on connection 0 and key `t` on connection 1 are both published as `t[1]` (`Registry.NamesCanCollide`).

## Model

| member | source | states |
|---|---|---|
| `Text.StripSlice` | src/core/io/serial.py:83 | `strip()` keeps one contiguous slice of the line, and everything it drops on either side is white space |
| `Text.StripIdempotent` | src/core/io/serial.py:83 | stripping is idempotent: stripping an already stripped line removes nothing more |
| `Text.StripEmptyIffBlank` | src/core/io/serial.py:89-91 | a read line is skipped as blank exactly when it is all white space |
| `Text.SplitJoin` | src/core/io/serial.py:115 | splitting a line at the delimiter loses nothing: joining the parts gives the line back |
| `Text.SplitPartsFree` | src/core/io/serial.py:115 | no CSV part contains the delimiter |
| `Text.SplitTwoFields` | src/core/io/serial.py:115 | a `key<d>value` line without other delimiters splits into exactly those two parts |
| `Text.UpperIsAuto` | src/core/io/serial.py:33 | a port choice upper-cases to `AUTO` exactly when it spells "auto" in any letter case |
| `Text.IntStringRoundTrip` | src/core/io/forms.py:88-92 | `int()` of an integer's decimal text gives that integer back, so form fields sent as text keep their value |
| `Text.IntToStringInjective` | src/core/runner.py:144 | different connection ordinals are printed differently in `key[i]` |
| `Forms.TruncateReal` | src/core/io/forms.py:90 | `int()` of a float truncates toward zero: the result lies within one of the float, on its side of zero |
| `Forms.SafeInt` | src/core/io/forms.py:88-92 | `safe_int` never fails: it gives `int(val)` when that succeeds and the default when the value is missing or not convertible |
| `Forms.FormDictToInput` | src/core/io/forms.py:85-108 | the line key is never empty (a truthy given key, else the generated one); integers fall back to 115200, 0, 1 and none; flags follow truthiness, with only the line format on by default; text fields pass through unchanged when present and are `AUTO`, `,`, `key`, `value` and `time` when absent |
| `Forms.EmptyPayloadIsDefault` | src/core/models/form_input.py:7-23 | an empty payload gives exactly the record's own defaults, apart from the generated line key |
| `Forms.StringFlagsAreTruthy` | src/core/io/forms.py:97-104 | a flag sent as a string is on for any non-empty string, "false" included |
| `Forms.FormDefaultsParse` | src/core/io/forms.py:96-103 | index and baud fields sent as the texts "115200", "0", "1" and "" parse to 115200, 0, 1 and no index |
| `SerialDecode.SafeIndex` | src/core/io/serial.py:45-52 | on the declared optional integer every index, `None` included, comes back unchanged |
| `SerialDecode.NormalizeConfig` | src/core/io/serial.py:66-75 | the loop settings keep every non-empty setting of the form and replace each empty one with `,`, `key`, `value`, `time` or the generated key, so no setting used is empty |
| `SerialDecode.ToFloat` | src/core/io/serial.py:38-43 | `float()` of integers, floats and booleans succeeds, of strings follows the float grammar, and of null, lists and objects fails instead of raising |
| `SerialDecode.JsonAttempt` | src/core/io/serial.py:96-112 | a syntax error is reported with its message; a non-object document crashes the reader; a missing key or a missing or non-numeric value is `json_missing_fields`; otherwise the sample has the key's text (an integer key as its decimal digits), the value, and the numeric time field or the receipt time |
| `SerialDecode.PickColumn` | src/core/io/serial.py:119-129 | a column is unused for no index or any index at or past `len(parts)`, raises below `-len(parts)`, and is otherwise the stripped part under Python's indexing |
| `SerialDecode.CsvAttempt` | src/core/io/serial.py:114-139 | `csv_value_index_error` exactly when there is no value column; with one, the policy crashes exactly when a column index lies below `-len(parts)`, and otherwise succeeds exactly when the value column is a number, else reports `csv_value_parse_error`; a sample's key is the key column or the line key, its value the value column read as a number, and its time a numeric time column, else the receipt time |
| `SerialDecode.LineAttempt` | src/core/io/serial.py:141-150 | the plain-line policy never crashes; it succeeds exactly when the whole line is a number, under the line key at the receipt time |
| `SerialDecode.Combine` | src/core/io/serial.py:152-157 | a non-blank line always has an effect: a sample, an error entry or the end of the reader |
| `SerialDecode.CombineFirstSuccess` | src/core/io/serial.py:93-157 | a line yields a sample exactly when some attempt succeeds and all earlier ones failed, and that first success is the sample |
| `SerialDecode.CombineLastFailure` | src/core/io/serial.py:152-157 | when every attempt fails, the error queued is the last attempt's |
| `SerialDecode.CombineDies` | src/core/io/serial.py:93-157 | the reader dies on a line exactly when an attempt raises before any attempt succeeded |
| `SerialDecode.CombineIgnoresEarlierError` | src/core/io/serial.py:114-144 | the error held from an earlier policy is irrelevant once a later policy runs |
| `SerialDecode.CombineWellShaped` | src/core/io/serial.py:152-157 | combining well-shaped errors queues a well-shaped error |
| `SerialDecode.DecodeFirstSuccessWins` | src/core/io/serial.py:96-150 | JSON, then CSV only when JSON is off or failed, then the plain line only when both are off or failed: the first enabled success is the sample |
| `SerialDecode.DecodeLastError` | src/core/io/serial.py:104-157 | when every enabled policy fails, the error is the line policy's, else the CSV policy's, else the JSON policy's, and `unknown_parse_error` when none is on |
| `SerialDecode.JsonSyntaxErrorFallsThrough` | src/core/io/serial.py:111-114 | with CSV or line on, a JSON syntax error handles the line as if JSON were off |
| `SerialDecode.NonObjectJsonEndsReader` | src/core/io/serial.py:98-99 | with JSON on, valid JSON that is not an object ends the reader |
| `SerialDecode.DecodeWellShaped` | src/core/io/serial.py:104-157 | every decode error carries its line, and only a JSON syntax error carries an error text |
| `SerialDecode.DefaultFormDecode` | src/core/io/serial.py:141-150 | under the form's defaults a numeric line becomes a sample under the generated key, and anything else a `line_value_parse_error` |
| `SerialDecode.CsvKeyValueLine` | src/core/io/serial.py:114-139 | with the default columns, a `key<d>value` line gives the stripped key and the value at the receipt time |
| `SerialDecode.StepEmits` | src/core/io/serial.py:77-91 | an idle pass or a blank line emits nothing; a read failure emits one `serial_error` with the exception text; every other pass emits exactly one entry or ends the reader |
| `SerialDecode.RunCounts` | src/core/io/serial.py:77-159 | while the reader lives, the two queues hold exactly one entry per emitting read, and every error entry is well shaped |
| `SerialDecode.RunStopsAfterDeath` | src/core/io/serial.py:77-159 | after the reader task dies, later reads change nothing |
| `SerialDecode.RunExtends` | src/core/io/serial.py:77-159 | the queues only grow: a longer run extends both queues of a shorter one |
| `Serial.SerialManager.ResolvePort` | src/core/io/serial.py:31-36 | an explicit port other than "auto" is kept; otherwise the first port found, or the choice itself when none is found |
| `Serial.SerialManager.constructor` | src/core/io/serial.py:14-29 | the id is the given non-empty one or a fresh one, the form is the given one or the defaults, the port is resolved, and both queues start empty |
| `Serial.SerialManager.HandleLine` | src/core/io/serial.py:93-157 | handling one line queues exactly what the decoder specifies, on the queue it specifies, or reports the reader's death |
| `Serial.SerialManager.Poll` | src/core/io/serial.py:77-91 | one loop pass changes the queues as the step function specifies |
| `Serial.SerialManager.Settings` | src/core/io/serial.py:66-75 | the settings computed before the first read are the normalised form settings |
| `Serial.SerialManager.ReadLoop` | src/core/io/serial.py:65-159 | after the loop both queues are their old contents followed by the run's entries, and the loop ends early exactly when the reader dies |
| `Listener.ErrKey` | core/listener.py:42 | a connection's error task key differs from its data task key |
| `Listener.ListenTasks` | core/listener.py:41-42 | `listen` stores both relays under the id and `id_err`, replacing those entries and keeping all others |
| `Listener.StopTasks` | core/listener.py:44-50 | `stop` removes exactly the two keys of the connection and keeps all other tasks |
| `Listener.StopIdempotent` | core/listener.py:44-50 | stopping twice is stopping once |
| `Listener.StopUnknown` | core/listener.py:44-50 | stopping a connection without tasks changes nothing |
| `Listener.StopUndoesListen` | core/listener.py:41-50 | stopping right after listening leaves the tasks as stopping alone would |
| `Listener.GeneratedIdIsNoErrKey` | core/listener.py:42 | a generated six-digit id is never another connection's error key |
| `Listener.StopKeepsOtherConnection` | core/listener.py:41-50 | stopping one generated connection leaves another's two relay tasks in place |
| `Listener.QueueListener.constructor` | core/listener.py:7-8 | the listener starts with no tasks |
| `Listener.QueueListener.Listen` | core/listener.py:41-42 | the task map becomes the one `ListenTasks` specifies, and nothing is cancelled |
| `Listener.QueueListener.Stop` | core/listener.py:44-50 | the task map becomes the one `StopTasks` specifies, and the tasks present are cancelled, data relay first |
| `Listener.DrainedFacts` | core/listener.py:21-39 | a relay passes items on in queue order and unchanged; it stops at the first sentinel, which it does not pass on, or right after the first item its handler raises on; otherwise it takes the whole queue |
| `Listener.DrainedStopsAtSentinel` | core/listener.py:22-25 | nothing after the first sentinel is ever taken |
| `Listener.Drain` | core/listener.py:21-39 | the relay loop does exactly what `Drained` specifies |
| `Registry.Subscribe` | src/core/runner.py:39-41 | the handler is appended to the key's list, created if missing, and no other key changes |
| `Registry.FirstIndex` | src/core/runner.py:49 | the position of the handler's first occurrence |
| `Registry.RemoveFirst` | src/core/runner.py:48-51 | removing an absent handler leaves the list as it was |
| `Registry.RemoveFirstCount` | src/core/runner.py:49 | `remove` takes out exactly one occurrence of a present handler |
| `Registry.RemoveFirstAt` | src/core/runner.py:49 | the occurrence removed is the first one |
| `Registry.RemoveFirstAppend` | src/core/runner.py:39-53 | removing from a list with the handler appended removes an earlier occurrence if there is one, and otherwise the appended one |
| `Registry.Unsubscribe` | src/core/runner.py:43-53 | a missing or empty list is left alone; otherwise one occurrence is removed and an emptied key dropped; other keys never change |
| `Registry.SubscriptionsKeepNoEmptyLists` | src/core/runner.py:39-53 | neither operation leaves a key with an empty list |
| `Registry.UnsubscribeAbsent` | src/core/runner.py:45-51 | unsubscribing a handler that is not subscribed changes nothing |
| `Registry.SubscribeThenUnsubscribeRestores` | src/core/runner.py:39-53 | subscribing a new handler and then unsubscribing it restores the subscriptions exactly |
| `Registry.SubscribeThenUnsubscribeMoves` | src/core/runner.py:39-53 | for a handler already subscribed, the pair keeps the same handlers as often, with this one moved to the end |
| `Registry.UniqueName` | src/core/runner.py:140-144 | connection 0 publishes a key under its own name, connection `i > 0` under `key[i]` |
| `Registry.UniqueNameInjective` | src/core/runner.py:140-144 | within one connection, different keys get different names |
| `Registry.UniqueNameSeparatesConnections` | src/core/runner.py:140-144 | one key from two connections gets two different names |
| `Registry.NamesCanCollide` | src/core/runner.py:140-144 | a key already shaped like `t[1]` on connection 0 collides with `t` on connection 1 |
| `Registry.RegisterSignal` | src/core/runner.py:146-167 | a key seen for the first time on a connection is stored under its unique name; a stored name is never reassigned and nothing else changes |
| `Registry.RegisterSignalAgain` | src/core/runner.py:154-165 | registering a key already registered changes nothing |
| `Registry.RegisterKeepsNames` | src/core/runner.py:146-167 | registration keeps every stored name its key's unique name and a connection's names pairwise different |
| `Registry.DeliveryCount` | src/core/runner.py:183-186 | a handler is called once per subscription to the base key, plus once per subscription to a distinct unique name |
| `Registry.FirstConnectionDeliversToBase` | src/core/runner.py:183-186 | the first connection's samples go only to the base key's subscribers |
| `Runner.CallsFor` | src/core/runner.py:191-200 | one call per handler, in list order, each recording whether it raised; no failure stops the rest |
| `Runner.ExtensionRunner.constructor` | src/core/runner.py:17-31 | a new runner has no connections, subscriptions, signals or ordinals, and a fresh listener without tasks and with nothing cancelled |
| `Runner.ExtensionRunner.Subscribe` | src/core/runner.py:39-41 | the subscriptions become `Registry.Subscribe` of the old ones, and the runner's invariant is kept |
| `Runner.ExtensionRunner.Unsubscribe` | src/core/runner.py:43-53 | the subscriptions become `Registry.Unsubscribe` of the old ones, and the runner's invariant is kept |
| `Runner.ExtensionRunner.CheckSignal` | src/core/runner.py:146-167 | the signals become `RegisterSignal` under the connection's ordinal, the stored name is returned, and exactly one announcement is made per new (connection, key) pair |
| `Runner.ExtensionRunner.Deliver` | src/core/runner.py:191-200 | every handler is called in turn, failing ones included |
| `Runner.ExtensionRunner.DataHandler` | src/core/runner.py:169-200 | a message without a key changes nothing; otherwise the key is registered and announced if new, and the base key's handlers and then the distinct unique name's are each called |
| `Runner.NextOrdinalKeepsValid` | src/core/runner.py:115-116 | giving a connection the next ordinal keeps every ordinal below the counter and no two connections sharing one |
| `Runner.ExtensionRunner.OpenManager` | src/core/runner.py:97-103 | a fresh manager for the id and form is built, with its port resolved and empty queues, and recorded in the three maps |
| `Runner.ExtensionRunner.ListenAndNumber` | src/core/runner.py:107-116 | the connection's two relay tasks are stored and it takes the next ordinal, with the invariant kept |
| `Runner.ExtensionRunner.NewConnection` | src/core/runner.py:91-138 | the new manager and its queues are recorded before `start`; a connection that starts takes the next ordinal and gets its two relay tasks; one that fails leaves the ordinals and the listener as they were; the invariant is kept |

## Left out

- Serial I/O is left out, as is `SerialManager.start`/`stop` with its stop event and `asyncio.sleep`. The read loop is modelled over the sequence of read outcomes it sees before it is stopped (`ReadEvent`).
- `Serial.SerialManager.ReadLoop`: the device query `in_waiting` (src/core/io/serial.py:78) sits outside the `try`, so an exception there ends the reader task instead of queueing a `serial_error`; `ReadEvent` has no outcome for it, so the model does not capture that way of dying.
- Decoding of the read bytes (`decode(errors="ignore")`) is left out: a received line is already text.
- `float()` of a string, `json.loads` and `str()` of a JSON float, list or object are parameters (`Primitives`), not implemented. Floats are `real`, so rounding, infinities and NaN are not modelled.
- `SerialDecode.ToFloat`: a JSON integer too large for a float makes `float()` raise an uncaught `OverflowError`; the model converts it exactly. `int(float('inf'))`'s `OverflowError` in `safe_int` is not modelled either.
- `SerialDecode.JsonAttempt`: `str()` of a JSON float (`5.0`) is the abstract `render`, so the model does not promise that a float key differs from the integer key with the same value; integer keys print as their decimal digits.
- `time.time()` is a parameter carried by each received line. `uuid4()` values are parameters constrained only to six lower-case hexadecimal digits where the code cuts them.
- The ports list (`list_ports.comports()`) is a parameter, and `SerialException` from `start` is a boolean parameter.
- Concurrency is left out: the interleaving of reader, relay tasks and runner, and the suspension at `await add_variable`. Task cancellation is recorded as a log of cancelled tasks.
- Toasts, the WebSocket stream registration (src/core/runner.py:118-128), `handle_error`, the host runtime, configuration loading and the dynamic form are left out. `src/core/io/socket.py` is not part of this model.
- The older copies under `core/` (`core/runner.py`, `core/io/forms.py`, the stream handler and message model) are not part of this model. Only `core/listener.py` is.
- `Text.Upper`: only ASCII letters are upper-cased, and no other character is treated as upper-casing into `AUTO`.
- `Text.ParseInt`: only ASCII digits are accepted by `int()`; other Unicode digits are not modelled.
- `Forms.FormDictToInput`: requires the text fields to hold strings (or null for `line_key` and `json_time_field`), as `FormInput` declares them; a payload of other types, which the code would store without complaint, is not modelled.
- `Runner.ExtensionRunner.CheckSignal`, `Runner.ExtensionRunner.DataHandler`: require that the connection already has its ordinal. The code guarantees this because `listen` and the ordinal assignment run without an `await` between them, so no relay task runs first.
- `Listener.QueueListener.Listen`: a task replaced under an existing key is not cancelled, as in the code; the orphaned task itself is not modelled.
- `Runner.ExtensionRunner.DataHandler`: handlers are known only by identity and whether they raise on the message; what they do is not modelled.

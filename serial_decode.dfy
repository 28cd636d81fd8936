/** What the serial reader does with each line it reads: the JSON, CSV and plain-line policies,
    the rule that combines them, and the run of a reader over a sequence of read outcomes.
    This module is the specification the imperative `Serial.SerialManager` is proved against. */
module SerialDecode {
  import opened Wrappers
  import opened Text
  import opened FormInputs

  /** A value `json.loads` can produce. */
  datatype JValue =
    | JNull
    | JBool(b: bool)
    | JInt(i: int)      // a JSON number written without fraction or exponent: a Python `int`
    | JNum(x: real)     // any other JSON number: a Python `float`
    | JStr(s: string)
    | JArray(items: seq<JValue>)
    | JObject(fields: map<string, JValue>)

  /** The outcome of `json.loads(raw)`: a document, or the `JSONDecodeError` with its message. */
  datatype JsonLoad = JsonSyntaxError(message: string) | JsonLoaded(doc: JValue)

  /** The library routines the reader relies on and this model leaves abstract:
      `float(s)` on a string (`None` where it raises `ValueError`), `json.loads`, and `str(v)`
      of a JSON number, list or object. */
  datatype Primitives = Primitives(
    parseFloat: string -> Option<real>,
    loads: string -> JsonLoad,
    render: JValue -> string)

  /** One decoded sample as it is put on the data queue: `{"key", "value", "time"}`. */
  datatype Sample = Sample(key: string, value: real, time: real)

  /** The `"type"` of an entry on the error queue. */
  datatype ErrorKind =
    | SerialError
    | JsonDecodeError
    | JsonMissingFields
    | CsvValueIndexError
    | CsvValueParseError
    | LineValueParseError
    | UnknownParseError

  /** The `"type"` tag as the program spells it. */
  function TypeTag(k: ErrorKind): string {
    match k
    case SerialError => "serial_error"
    case JsonDecodeError => "json_decode_error"
    case JsonMissingFields => "json_missing_fields"
    case CsvValueIndexError => "csv_value_index_error"
    case CsvValueParseError => "csv_value_parse_error"
    case LineValueParseError => "line_value_parse_error"
    case UnknownParseError => "unknown_parse_error"
  }

  /** One entry on the error queue: its type, the `"line"` it concerns and the `"error"` text. */
  datatype ErrorEvent = ErrorEvent(kind: ErrorKind, line: Option<string>, error: Option<string>)

  /** The shape of the entries the reader produces: only read failures lack a line, and only
      read failures and JSON syntax errors carry an error text. */
  predicate WellShaped(e: ErrorEvent) {
    && (e.line.None? <==> e.kind == SerialError)
    && (e.error.Some? <==> e.kind == SerialError || e.kind == JsonDecodeError)
  }

  /** The settings the read loop computes once, before its first read. */
  datatype LoopConfig = LoopConfig(
    jsonEnable: bool,
    csvEnable: bool,
    lineEnable: bool,
    delimiter: string,
    keyIndex: Option<int>,
    valueIndex: Option<int>,
    timeIndex: Option<int>,
    keyField: string,
    valueField: string,
    timeField: string,
    lineKey: string)

  /** Every text setting the policies use is non-empty; in particular `split` is never given
      an empty separator. */
  predicate ValidConfig(cfg: LoopConfig) {
    && cfg.delimiter != ""
    && cfg.keyField != "" && cfg.valueField != "" && cfg.timeField != ""
    && cfg.lineKey != ""
  }

  /** Python's `s or default` on a string. */
  function OrElse(s: string, default: string): string {
    if s != "" then s else default
  }

  /** `_safe_index(idx)`: on the declared `Optional[int]` the `int` conversion cannot fail,
      so every index, `None` included, comes back as it went in. */
  function SafeIndex(idx: Option<int>): (r: Option<int>)
    ensures r == idx
  {
    match idx
    case None => None
    case Some(i) => Some(i)
  }

  /** The loop settings derived from the form, with `generatedKey` standing for `uuid4().hex[:6]`. */
  function NormalizeConfig(form: FormInput, generatedKey: string): (cfg: LoopConfig)
    requires IsGeneratedKey(generatedKey)
    ensures ValidConfig(cfg)
    ensures cfg.jsonEnable == form.jsonEnable && cfg.csvEnable == form.csvEnable && cfg.lineEnable == form.lineEnable
    ensures cfg.keyIndex == form.csvKeyIndex && cfg.valueIndex == form.csvValueIndex && cfg.timeIndex == form.csvTimeIndex
    // A setting the user gave is kept; only an empty one is replaced.
    ensures form.csvDelimiter != "" ==> cfg.delimiter == form.csvDelimiter
    ensures form.csvDelimiter == "" ==> cfg.delimiter == ","
    ensures form.jsonKeyField != "" ==> cfg.keyField == form.jsonKeyField
    ensures form.jsonKeyField == "" ==> cfg.keyField == "key"
    ensures form.jsonValueField != "" ==> cfg.valueField == form.jsonValueField
    ensures form.jsonValueField == "" ==> cfg.valueField == "value"
    ensures cfg.timeField == (if form.jsonTimeField.Some? && form.jsonTimeField.value != "" then form.jsonTimeField.value else "time")
    ensures form.lineKey != "" ==> cfg.lineKey == form.lineKey
    ensures form.lineKey == "" ==> cfg.lineKey == generatedKey
  {
    LoopConfig(
      jsonEnable := form.jsonEnable,
      csvEnable := form.csvEnable,
      lineEnable := form.lineEnable,
      delimiter := OrElse(form.csvDelimiter, ","),
      keyIndex := SafeIndex(form.csvKeyIndex),
      valueIndex := SafeIndex(form.csvValueIndex),
      timeIndex := SafeIndex(form.csvTimeIndex),
      keyField := OrElse(form.jsonKeyField, "key"),
      valueField := OrElse(form.jsonValueField, "value"),
      timeField := OrElse(form.jsonTimeField.GetOr(""), "time"),
      lineKey := OrElse(form.lineKey, generatedKey))
  }

  /** `_to_float(v)`: `float(v)`, or `None` where it raises (`None`, lists and objects give
      `TypeError`; a string that is no number gives `ValueError`). */
  function ToFloat(v: JValue, prim: Primitives): (r: Option<real>)
    ensures v.JInt? ==> r == Some(v.i as real)
    ensures v.JNum? ==> r == Some(v.x)
    ensures v.JBool? ==> r == Some(if v.b then 1.0 else 0.0)
    ensures v.JStr? ==> r == prim.parseFloat(v.s)
    ensures (v.JNull? || v.JArray? || v.JObject?) ==> r == None
  {
    match v
    case JNull => None
    case JBool(b) => Some(if b then 1.0 else 0.0)
    case JInt(i) => Some(i as real)
    case JNum(x) => Some(x)
    case JStr(s) => prim.parseFloat(s)
    case JArray(_) => None
    case JObject(_) => None
  }

  /** `str(v)` of a JSON value other than `None`: an integer prints as its decimal digits, so
      the keys `5` and `5.0` are told apart only by how `str` renders the float. */
  function PyStr(v: JValue, prim: Primitives): (s: string)
    ensures v.JStr? ==> s == v.s
    ensures v.JInt? ==> s == IntToString(v.i) && ParseInt(s) == Some(v.i)
    ensures v.JNum? || v.JArray? || v.JObject? ==> s == prim.render(v)
  {
    match v
    case JStr(s) => s
    case JBool(b) => if b then "True" else "False"
    case JNull => "None"
    case JInt(i) => IntStringRoundTrip(i); IntToString(i)
    case _ => prim.render(v)
  }

  /** `j.get(name)`: an absent field and a JSON `null` both read as `None`. */
  function Lookup(fields: map<string, JValue>, name: string): JValue {
    if name in fields then fields[name] else JNull
  }

  /** The result of one policy on one line: a sample, an error entry, or an exception the
      policy does not catch, which ends the reader task. */
  datatype Attempt = Parsed(sample: Sample) | Failed(error: ErrorEvent) | Crashed

  function LineError(kind: ErrorKind, raw: string): ErrorEvent {
    ErrorEvent(kind, Some(raw), None)
  }

  /** The JSON policy. A document that is not an object has no `.get`: the `AttributeError`
      escapes the `except json.JSONDecodeError` and the reader dies. */
  function JsonAttempt(cfg: LoopConfig, raw: string, now: real, prim: Primitives): (r: Attempt)
    ensures prim.loads(raw).JsonSyntaxError? ==>
              r == Failed(ErrorEvent(JsonDecodeError, Some(raw), Some(prim.loads(raw).message)))
    ensures r.Crashed? <==> prim.loads(raw).JsonLoaded? && !prim.loads(raw).doc.JObject?
    ensures prim.loads(raw).JsonLoaded? && prim.loads(raw).doc.JObject? ==>
              var fields := prim.loads(raw).doc.fields;
              var key := Lookup(fields, cfg.keyField);
              var value := ToFloat(Lookup(fields, cfg.valueField), prim);
              var time := ToFloat(Lookup(fields, cfg.timeField), prim);
              // A missing key, or a missing or non-numeric value, is reported; all else succeeds.
              && (key.JNull? || value.None? <==> r == Failed(LineError(JsonMissingFields, raw)))
              && (r.Parsed? <==> !key.JNull? && value.Some?)
              && (r.Parsed? ==> r.sample.key == PyStr(key, prim) && r.sample.value == value.value)
              // The time field is used when it is numeric; otherwise the receipt time is.
              && (r.Parsed? ==> r.sample.time == if time.Some? then time.value else now)
  {
    match prim.loads(raw)
    case JsonSyntaxError(message) => Failed(ErrorEvent(JsonDecodeError, Some(raw), Some(message)))
    case JsonLoaded(doc) =>
      if !doc.JObject? then Crashed
      else
        var key := Lookup(doc.fields, cfg.keyField);
        var value := ToFloat(Lookup(doc.fields, cfg.valueField), prim);
        var ts := Lookup(doc.fields, cfg.timeField);
        var tsF := if ts.JNull? then None else ToFloat(ts, prim);
        if key.JNull? || value.None? then Failed(LineError(JsonMissingFields, raw))
        else Parsed(Sample(PyStr(key, prim), value.value, tsF.GetOr(now)))
  }

  /** Looking up one CSV column: not used (no index, or an index past the end), an index below
      `-len(parts)` (Python raises `IndexError`), or the stripped part. */
  datatype Column = Unused | OutOfRange | Column(text: string)

  /** `parts[idx].strip() if idx is not None and idx < len(parts) else <fallback>`, with Python's
      negative indexing. */
  function PickColumn(parts: seq<string>, idx: Option<int>): (c: Column)
    ensures c.Unused? <==> idx.None? || idx.value >= |parts|
    ensures c.OutOfRange? <==> idx.Some? && idx.value < -|parts|
    ensures idx.Some? && 0 <= idx.value < |parts| ==> c == Column(Strip(parts[idx.value]))
    ensures idx.Some? && -|parts| <= idx.value < 0 ==> c == Column(Strip(parts[|parts| + idx.value]))
  {
    if idx.None? || idx.value >= |parts| then Unused
    else if idx.value >= 0 then Column(Strip(parts[idx.value]))
    else if idx.value >= -|parts| then Column(Strip(parts[|parts| + idx.value]))
    else OutOfRange
  }

  /** The CSV policy. */
  function CsvAttempt(cfg: LoopConfig, raw: string, now: real, prim: Primitives): (r: Attempt)
    requires cfg.delimiter != ""
    // No value column: reported before any column is read, so nothing can crash.
    ensures var n := |Split(raw, cfg.delimiter)|;
            cfg.valueIndex.None? || cfg.valueIndex.value >= n <==> r == Failed(LineError(CsvValueIndexError, raw))
    ensures r.Failed? ==> r.error.kind in {CsvValueIndexError, CsvValueParseError} && r.error.line == Some(raw)
    ensures r.Parsed? ==>
              var parts := Split(raw, cfg.delimiter);
              // The key is the stripped key column, or the line key when there is none.
              && (PickColumn(parts, cfg.keyIndex).Column? ==> r.sample.key == PickColumn(parts, cfg.keyIndex).text)
              && (PickColumn(parts, cfg.keyIndex).Unused? ==> r.sample.key == cfg.lineKey)
              // The value is the stripped value column read as a number.
              && PickColumn(parts, cfg.valueIndex).Column?
              && prim.parseFloat(PickColumn(parts, cfg.valueIndex).text) == Some(r.sample.value)
              // The time is the stripped time column when it is numeric, else the receipt time.
              && (r.sample.time == now ||
                  (PickColumn(parts, cfg.timeIndex).Column? &&
                   prim.parseFloat(PickColumn(parts, cfg.timeIndex).text) == Some(r.sample.time)))
    // With a value column: the policy crashes exactly when one of its columns lies below
    // `-len(parts)`; otherwise it succeeds exactly when the value column is a number, and a
    // numeric time column gives the time.
    ensures var parts := Split(raw, cfg.delimiter);
            var keyCol := PickColumn(parts, cfg.keyIndex);
            var valCol := PickColumn(parts, cfg.valueIndex);
            var timeCol := PickColumn(parts, cfg.timeIndex);
            cfg.valueIndex.Some? && cfg.valueIndex.value < |parts| ==>
              && (r.Crashed? <==> keyCol.OutOfRange? || valCol.OutOfRange? || timeCol.OutOfRange?)
              && (valCol.Column? && !r.Crashed? ==>
                    && (r.Parsed? <==> prim.parseFloat(valCol.text).Some?)
                    && (r.Failed? <==> r == Failed(LineError(CsvValueParseError, raw))))
              && (r.Parsed? ==>
                    r.sample.time == if timeCol.Column? && prim.parseFloat(timeCol.text).Some?
                                     then prim.parseFloat(timeCol.text).value else now)
  {
    var parts := Split(raw, cfg.delimiter);
    if cfg.valueIndex.None? || cfg.valueIndex.value >= |parts| then Failed(LineError(CsvValueIndexError, raw))
    else
      var keyCol := PickColumn(parts, cfg.keyIndex);
      var valCol := PickColumn(parts, cfg.valueIndex);
      var timeCol := PickColumn(parts, cfg.timeIndex);
      if keyCol.OutOfRange? || valCol.OutOfRange? || timeCol.OutOfRange? then Crashed
      else
        var keyPart := if keyCol.Column? then keyCol.text else cfg.lineKey;
        var valF := prim.parseFloat(valCol.text);
        var tsF := if timeCol.Column? then prim.parseFloat(timeCol.text) else None;
        if valF.None? then Failed(LineError(CsvValueParseError, raw))
        else Parsed(Sample(keyPart, valF.value, tsF.GetOr(now)))
  }

  /** The plain-line policy: the whole line is the value, under the line key, at the receipt time. */
  function LineAttempt(cfg: LoopConfig, raw: string, now: real, prim: Primitives): (r: Attempt)
    ensures !r.Crashed?
    ensures r.Parsed? <==> prim.parseFloat(raw).Some?
    ensures r.Parsed? ==> r.sample == Sample(cfg.lineKey, prim.parseFloat(raw).value, now)
    ensures r.Failed? ==> r.error == LineError(LineValueParseError, raw)
  {
    match ToFloat(JStr(raw), prim)
    case Some(v) => Parsed(Sample(cfg.lineKey, v, now))
    case None => Failed(LineError(LineValueParseError, raw))
  }

  /** What handling one read does to the reader: nothing, one entry on the data queue, one
      entry on the error queue, or the end of the reader task. */
  datatype Effect = Quiet | ToData(sample: Sample) | ToErrors(error: ErrorEvent) | Dies

  /** The enabled policies' attempts, in the order the program tries them. */
  function EnabledAttempts(cfg: LoopConfig, raw: string, now: real, prim: Primitives): seq<Attempt>
    requires cfg.delimiter != ""
  {
    (if cfg.jsonEnable then [JsonAttempt(cfg, raw, now, prim)] else [])
    + (if cfg.csvEnable then [CsvAttempt(cfg, raw, now, prim)] else [])
    + (if cfg.lineEnable then [LineAttempt(cfg, raw, now, prim)] else [])
  }

  /** How the attempts combine: the first success is pushed and nothing after it runs; an
      uncaught exception ends the reader; when every attempt failed, the last error is pushed,
      and with no attempt at all an `unknown_parse_error`. */
  function Combine(attempts: seq<Attempt>, lastError: Option<ErrorEvent>, raw: string): (e: Effect)
    ensures e != Quiet
  {
    if attempts == [] then ToErrors(lastError.GetOr(LineError(UnknownParseError, raw)))
    else
      match attempts[0]
      case Parsed(s) => ToData(s)
      case Crashed => Dies
      case Failed(err) => Combine(attempts[1..], Some(err), raw)
  }

  /** The handling of one non-blank stripped line. */
  function Decode(cfg: LoopConfig, raw: string, now: real, prim: Primitives): Effect
    requires cfg.delimiter != ""
  {
    Combine(EnabledAttempts(cfg, raw, now, prim), None, raw)
  }

  /** An outcome of one pass of the read loop. */
  datatype ReadEvent =
    | NoData                             // no port open, or nothing waiting
    | ReadFailure(message: string)       // `readline` raised; `message` is `str(exc)`
    | Received(text: string, now: real)  // a decoded line, and the clock reading it gets

  /** One pass of the read loop. */
  function Step(cfg: LoopConfig, ev: ReadEvent, prim: Primitives): Effect
    requires cfg.delimiter != ""
  {
    match ev
    case NoData => Quiet
    case ReadFailure(message) => ToErrors(ErrorEvent(SerialError, None, Some(message)))
    case Received(text, now) =>
      var raw := Strip(text);
      if raw == "" then Quiet else Decode(cfg, raw, now, prim)
  }

  /** The queues' contents after a run, and whether the reader task died. */
  datatype RunResult = RunResult(data: seq<Sample>, errors: seq<ErrorEvent>, died: bool)

  function Apply(res: RunResult, eff: Effect): RunResult {
    match eff
    case Quiet => res
    case ToData(s) => res.(data := res.data + [s])
    case ToErrors(e) => res.(errors := res.errors + [e])
    case Dies => res.(died := true)
  }

  /** The reader run over a sequence of read outcomes; after it dies, later outcomes change nothing. */
  function Run(cfg: LoopConfig, events: seq<ReadEvent>, prim: Primitives): RunResult
    requires cfg.delimiter != ""
  {
    if events == [] then RunResult([], [], false)
    else
      var prev := Run(cfg, events[..|events| - 1], prim);
      if prev.died then prev else Apply(prev, Step(cfg, events[|events| - 1], prim))
  }

  // ---------------------------------------------------------------------------------------
  // How the policies combine

  /** A line produces a sample exactly when some attempt succeeds and every attempt before
      it failed; that first success is the sample. */
  lemma {:induction false} CombineFirstSuccess(attempts: seq<Attempt>, lastError: Option<ErrorEvent>, raw: string, s: Sample)
    ensures Combine(attempts, lastError, raw) == ToData(s) <==>
            exists i :: 0 <= i < |attempts| && attempts[i] == Parsed(s) && forall j :: 0 <= j < i ==> attempts[j].Failed?
  {
    if attempts != [] {
      CombineFirstSuccess(attempts[1..], if attempts[0].Failed? then Some(attempts[0].error) else lastError, raw, s);
      if attempts[0].Failed? {
        if Combine(attempts, lastError, raw) == ToData(s) {
          var i :| 0 <= i < |attempts[1..]| && attempts[1..][i] == Parsed(s) && forall j :: 0 <= j < i ==> attempts[1..][j].Failed?;
          assert attempts[i + 1] == Parsed(s);
          assert forall j :: 0 <= j < i + 1 ==> attempts[j].Failed? by {
            forall j | 0 <= j < i + 1 ensures attempts[j].Failed? {
              if j > 0 { assert attempts[j] == attempts[1..][j - 1]; }
            }
          }
        }
        if exists i :: 0 <= i < |attempts| && attempts[i] == Parsed(s) && forall j :: 0 <= j < i ==> attempts[j].Failed? {
          var i :| 0 <= i < |attempts| && attempts[i] == Parsed(s) && forall j :: 0 <= j < i ==> attempts[j].Failed?;
          assert i > 0;
          assert attempts[1..][i - 1] == Parsed(s);
          assert forall j :: 0 <= j < i - 1 ==> attempts[1..][j].Failed? by {
            forall j | 0 <= j < i - 1 ensures attempts[1..][j].Failed? {
              assert attempts[1..][j] == attempts[j + 1];
            }
          }
        }
      } else {
        if exists i :: 0 <= i < |attempts| && attempts[i] == Parsed(s) && forall j :: 0 <= j < i ==> attempts[j].Failed? {
          var i :| 0 <= i < |attempts| && attempts[i] == Parsed(s) && forall j :: 0 <= j < i ==> attempts[j].Failed?;
          assert i == 0;
        }
      }
    }
  }

  /** When every attempt fails, the error pushed is the last attempt's. */
  lemma {:induction false} CombineLastFailure(attempts: seq<Attempt>, lastError: Option<ErrorEvent>, raw: string)
    requires attempts != [] && forall j :: 0 <= j < |attempts| ==> attempts[j].Failed?
    ensures Combine(attempts, lastError, raw) == ToErrors(attempts[|attempts| - 1].error)
  {
    if |attempts| > 1 {
      assert forall j :: 0 <= j < |attempts[1..]| ==> attempts[1..][j].Failed? by {
        forall j | 0 <= j < |attempts[1..]| ensures attempts[1..][j].Failed? {
          assert attempts[1..][j] == attempts[j + 1];
        }
      }
      CombineLastFailure(attempts[1..], Some(attempts[0].error), raw);
      assert attempts[1..][|attempts[1..]| - 1] == attempts[|attempts| - 1];
    }
  }

  /** The reader dies on a line exactly when an attempt crashes before any attempt succeeded. */
  lemma {:induction false} CombineDies(attempts: seq<Attempt>, lastError: Option<ErrorEvent>, raw: string)
    ensures Combine(attempts, lastError, raw) == Dies <==>
            exists i :: 0 <= i < |attempts| && attempts[i].Crashed? && forall j :: 0 <= j < i ==> attempts[j].Failed?
  {
    if attempts != [] {
      CombineDies(attempts[1..], if attempts[0].Failed? then Some(attempts[0].error) else lastError, raw);
      if attempts[0].Failed? {
        if Combine(attempts, lastError, raw) == Dies {
          var i :| 0 <= i < |attempts[1..]| && attempts[1..][i].Crashed? && forall j :: 0 <= j < i ==> attempts[1..][j].Failed?;
          assert attempts[i + 1].Crashed?;
          assert forall j :: 0 <= j < i + 1 ==> attempts[j].Failed? by {
            forall j | 0 <= j < i + 1 ensures attempts[j].Failed? {
              if j > 0 { assert attempts[j] == attempts[1..][j - 1]; }
            }
          }
        }
        if exists i :: 0 <= i < |attempts| && attempts[i].Crashed? && forall j :: 0 <= j < i ==> attempts[j].Failed? {
          var i :| 0 <= i < |attempts| && attempts[i].Crashed? && forall j :: 0 <= j < i ==> attempts[j].Failed?;
          assert i > 0;
          assert attempts[1..][i - 1].Crashed?;
          assert forall j :: 0 <= j < i - 1 ==> attempts[1..][j].Failed? by {
            forall j | 0 <= j < i - 1 ensures attempts[1..][j].Failed? {
              assert attempts[1..][j] == attempts[j + 1];
            }
          }
        }
      } else {
        if exists i :: 0 <= i < |attempts| && attempts[i].Crashed? && forall j :: 0 <= j < i ==> attempts[j].Failed? {
          var i :| 0 <= i < |attempts| && attempts[i].Crashed? && forall j :: 0 <= j < i ==> attempts[j].Failed?;
          assert i == 0;
        }
      }
    }
  }

  /** Which error was held before a non-empty list of attempts makes no difference. */
  lemma {:induction false} CombineIgnoresEarlierError(attempts: seq<Attempt>, e1: Option<ErrorEvent>, e2: Option<ErrorEvent>, raw: string)
    requires attempts != []
    ensures Combine(attempts, e1, raw) == Combine(attempts, e2, raw)
  {
    if attempts[0].Failed? && |attempts| > 1 {
      CombineIgnoresEarlierError(attempts[1..], Some(attempts[0].error), Some(attempts[0].error), raw);
    }
  }

  /** Errors gathered from attempts with well-shaped errors are well shaped. */
  lemma {:induction false} CombineWellShaped(attempts: seq<Attempt>, lastError: Option<ErrorEvent>, raw: string)
    requires forall j :: 0 <= j < |attempts| && attempts[j].Failed? ==> WellShaped(attempts[j].error)
    requires lastError.Some? ==> WellShaped(lastError.value)
    ensures Combine(attempts, lastError, raw).ToErrors? ==> WellShaped(Combine(attempts, lastError, raw).error)
  {
    if attempts != [] && attempts[0].Failed? {
      assert forall j :: 0 <= j < |attempts[1..]| && attempts[1..][j].Failed? ==> WellShaped(attempts[1..][j].error) by {
        forall j | 0 <= j < |attempts[1..]| && attempts[1..][j].Failed? ensures WellShaped(attempts[1..][j].error) {
          assert attempts[1..][j] == attempts[j + 1];
        }
      }
      CombineWellShaped(attempts[1..], Some(attempts[0].error), raw);
    }
  }

  // ---------------------------------------------------------------------------------------
  // One line

  /** The first enabled policy that succeeds decides the sample: JSON, then CSV only after
      JSON is off or failed, then the plain line only after both are off or failed. */
  lemma DecodeFirstSuccessWins(cfg: LoopConfig, raw: string, now: real, prim: Primitives, s: Sample)
    requires cfg.delimiter != ""
    ensures var json := JsonAttempt(cfg, raw, now, prim);
            var csv := CsvAttempt(cfg, raw, now, prim);
            var line := LineAttempt(cfg, raw, now, prim);
            Decode(cfg, raw, now, prim) == ToData(s) <==>
              || (cfg.jsonEnable && json == Parsed(s))
              || (cfg.csvEnable && csv == Parsed(s) && (!cfg.jsonEnable || json.Failed?))
              || (cfg.lineEnable && line == Parsed(s) && (!cfg.jsonEnable || json.Failed?) && (!cfg.csvEnable || csv.Failed?))
  {
    var json := JsonAttempt(cfg, raw, now, prim);
    var csv := CsvAttempt(cfg, raw, now, prim);
    var line := LineAttempt(cfg, raw, now, prim);
    var tail := if cfg.lineEnable then [line] else [];
    var mid := (if cfg.csvEnable then [csv] else []) + tail;
    assert EnabledAttempts(cfg, raw, now, prim) == (if cfg.jsonEnable then [json] + mid else mid);
    assert mid == if cfg.csvEnable then [csv] + tail else tail;
    if cfg.lineEnable {
      assert tail == [line] + [];
      CombineStep(line, [], if cfg.csvEnable && csv.Failed? then Some(csv.error)
                            else if cfg.jsonEnable && json.Failed? then Some(json.error) else None, raw);
    }
    if cfg.csvEnable {
      assert mid == [csv] + tail;
      CombineStep(csv, tail, if cfg.jsonEnable && json.Failed? then Some(json.error) else None, raw);
    }
    if cfg.jsonEnable {
      CombineStep(json, mid, None, raw);
    }
  }

  lemma CombineStep(a: Attempt, rest: seq<Attempt>, lastError: Option<ErrorEvent>, raw: string)
    ensures Combine([a] + rest, lastError, raw) ==
              match a
              case Parsed(s) => ToData(s)
              case Crashed => Dies
              case Failed(err) => Combine(rest, Some(err), raw)
  {
    assert ([a] + rest)[1..] == rest;
  }

  /** When every enabled policy fails, the error reported is the last enabled policy's:
      the line policy's if it is on, else the CSV policy's, else the JSON policy's; with no
      policy on it is an `unknown_parse_error` for the line. */
  lemma DecodeLastError(cfg: LoopConfig, raw: string, now: real, prim: Primitives)
    requires cfg.delimiter != ""
    requires cfg.jsonEnable ==> JsonAttempt(cfg, raw, now, prim).Failed?
    requires cfg.csvEnable ==> CsvAttempt(cfg, raw, now, prim).Failed?
    requires cfg.lineEnable ==> LineAttempt(cfg, raw, now, prim).Failed?
    ensures Decode(cfg, raw, now, prim) ==
              if cfg.lineEnable then ToErrors(LineError(LineValueParseError, raw))
              else if cfg.csvEnable then ToErrors(CsvAttempt(cfg, raw, now, prim).error)
              else if cfg.jsonEnable then ToErrors(JsonAttempt(cfg, raw, now, prim).error)
              else ToErrors(LineError(UnknownParseError, raw))
  {
    var atts := EnabledAttempts(cfg, raw, now, prim);
    if atts != [] {
      assert forall j :: 0 <= j < |atts| ==> atts[j].Failed?;
      CombineLastFailure(atts, None, raw);
    }
  }

  /** A JSON syntax error does not stop the later policies: when one of them is on, the line
      is handled exactly as if JSON decoding were off. */
  lemma JsonSyntaxErrorFallsThrough(cfg: LoopConfig, raw: string, now: real, prim: Primitives)
    requires cfg.delimiter != ""
    requires cfg.jsonEnable && prim.loads(raw).JsonSyntaxError?
    requires cfg.csvEnable || cfg.lineEnable
    ensures Decode(cfg, raw, now, prim) == Decode(cfg.(jsonEnable := false), raw, now, prim)
  {
    var rest := EnabledAttempts(cfg.(jsonEnable := false), raw, now, prim);
    var json := JsonAttempt(cfg, raw, now, prim);
    assert CsvAttempt(cfg, raw, now, prim) == CsvAttempt(cfg.(jsonEnable := false), raw, now, prim);
    assert LineAttempt(cfg, raw, now, prim) == LineAttempt(cfg.(jsonEnable := false), raw, now, prim);
    assert EnabledAttempts(cfg, raw, now, prim) == [json] + rest;
    assert ([json] + rest)[1..] == rest;
    CombineIgnoresEarlierError(rest, Some(json.error), None, raw);
  }

  /** With JSON on, a line that is valid JSON but not an object (a bare number such as "23.5",
      a string, a list) ends the reader, whatever the later policies would have made of it. */
  lemma NonObjectJsonEndsReader(cfg: LoopConfig, raw: string, now: real, prim: Primitives)
    requires cfg.delimiter != ""
    requires cfg.jsonEnable && prim.loads(raw).JsonLoaded? && !prim.loads(raw).doc.JObject?
    ensures Decode(cfg, raw, now, prim) == Dies
  {
    var json := JsonAttempt(cfg, raw, now, prim);
    var rest := EnabledAttempts(cfg.(jsonEnable := false), raw, now, prim);
    assert CsvAttempt(cfg, raw, now, prim) == CsvAttempt(cfg.(jsonEnable := false), raw, now, prim);
    assert LineAttempt(cfg, raw, now, prim) == LineAttempt(cfg.(jsonEnable := false), raw, now, prim);
    assert EnabledAttempts(cfg, raw, now, prim) == [json] + rest;
    CombineStep(json, rest, None, raw);
  }

  /** Every error the decoder reports has the shape of its kind. */
  lemma DecodeWellShaped(cfg: LoopConfig, raw: string, now: real, prim: Primitives)
    requires cfg.delimiter != ""
    ensures Decode(cfg, raw, now, prim).ToErrors? ==> WellShaped(Decode(cfg, raw, now, prim).error)
  {
    var atts := EnabledAttempts(cfg, raw, now, prim);
    assert forall j :: 0 <= j < |atts| && atts[j].Failed? ==> WellShaped(atts[j].error);
    CombineWellShaped(atts, None, raw);
  }

  /** With the form's defaults only the line policy is on: a numeric line becomes a sample
      under the generated key at the receipt time, anything else a `line_value_parse_error`. */
  lemma DefaultFormDecode(generatedKey: string, raw: string, now: real, prim: Primitives)
    requires IsGeneratedKey(generatedKey)
    ensures var cfg := NormalizeConfig(DefaultForm, generatedKey);
            Decode(cfg, raw, now, prim) ==
              match prim.parseFloat(raw)
              case Some(v) => ToData(Sample(generatedKey, v, now))
              case None => ToErrors(LineError(LineValueParseError, raw))
  {
    var cfg := NormalizeConfig(DefaultForm, generatedKey);
    assert cfg.lineKey == generatedKey;
    assert EnabledAttempts(cfg, raw, now, prim) == [LineAttempt(cfg, raw, now, prim)];
    assert [LineAttempt(cfg, raw, now, prim)] == [LineAttempt(cfg, raw, now, prim)] + [];
    CombineStep(LineAttempt(cfg, raw, now, prim), [], None, raw);
  }

  /** A `key<d>value` line under the default CSV columns (key 0, value 1, no time) with CSV
      on and JSON off: the sample is the stripped key and the value, at the receipt time. */
  lemma CsvKeyValueLine(cfg: LoopConfig, key: string, val: string, d: char, now: real, prim: Primitives, x: real)
    requires cfg.delimiter == [d] && d !in key && d !in val
    requires cfg.csvEnable && !cfg.jsonEnable
    requires cfg.keyIndex == Some(0) && cfg.valueIndex == Some(1) && cfg.timeIndex.None?
    requires prim.parseFloat(Strip(val)) == Some(x)
    ensures Decode(cfg, key + [d] + val, now, prim) == ToData(Sample(Strip(key), x, now))
  {
    var raw := key + [d] + val;
    SplitTwoFields(key, val, d);
    var parts := Split(raw, cfg.delimiter);
    assert PickColumn(parts, cfg.keyIndex) == Column(Strip(key));
    assert PickColumn(parts, cfg.valueIndex) == Column(Strip(val));
    assert PickColumn(parts, cfg.timeIndex) == Unused;
    var csv := CsvAttempt(cfg, raw, now, prim);
    assert csv == Parsed(Sample(Strip(key), x, now));
    var tail := if cfg.lineEnable then [LineAttempt(cfg, raw, now, prim)] else [];
    assert EnabledAttempts(cfg, raw, now, prim) == [csv] + tail;
    CombineStep(csv, tail, None, raw);
  }

  // ---------------------------------------------------------------------------------------
  // The read loop

  /** A read outcome that puts something on a queue (or ends the reader): a read failure, or
      a line that is not blank once stripped. */
  predicate Emits(ev: ReadEvent) {
    ev.ReadFailure? || (ev.Received? && Strip(ev.text) != "")
  }

  function CountEmitting(events: seq<ReadEvent>): (n: nat)
    ensures n <= |events|
  {
    if events == [] then 0
    else CountEmitting(events[..|events| - 1]) + (if Emits(events[|events| - 1]) then 1 else 0)
  }

  /** A pass with nothing waiting, or with a blank line, emits nothing; every other pass puts
      exactly one entry on exactly one queue or ends the reader. A read failure is one
      `serial_error` entry carrying the exception's text. */
  lemma {:induction false} StepEmits(cfg: LoopConfig, ev: ReadEvent, prim: Primitives)
    requires cfg.delimiter != ""
    ensures Step(cfg, ev, prim) == Quiet <==> !Emits(ev)
    ensures ev.ReadFailure? ==> Step(cfg, ev, prim) == ToErrors(ErrorEvent(SerialError, None, Some(ev.message)))
    ensures Step(cfg, ev, prim).ToErrors? ==> WellShaped(Step(cfg, ev, prim).error)
  {
    if ev.Received? && Strip(ev.text) != "" {
      DecodeWellShaped(cfg, Strip(ev.text), ev.now, prim);
    }
  }

  /** Until the reader dies, the two queues together hold exactly one entry per emitting read
      outcome, and every error entry is well shaped. */
  lemma {:induction false} RunCounts(cfg: LoopConfig, events: seq<ReadEvent>, prim: Primitives)
    requires cfg.delimiter != ""
    ensures var res := Run(cfg, events, prim);
            && (!res.died ==> |res.data| + |res.errors| == CountEmitting(events))
            && |res.data| + |res.errors| <= CountEmitting(events)
            && forall k :: 0 <= k < |res.errors| ==> WellShaped(res.errors[k])
  {
    if events != [] {
      var init := events[..|events| - 1];
      RunCounts(cfg, init, prim);
      StepEmits(cfg, events[|events| - 1], prim);
    }
  }

  /** Applying an effect to queues that already held entries before the run. */
  lemma ApplyAfter(q: seq<Sample>, e: seq<ErrorEvent>, res: RunResult, eff: Effect)
    requires !res.died
    ensures Apply(RunResult(q + res.data, e + res.errors, false), eff) ==
            RunResult(q + Apply(res, eff).data, e + Apply(res, eff).errors, Apply(res, eff).died)
  {
    match eff
    case ToData(s) => assert (q + res.data) + [s] == q + (res.data + [s]);
    case ToErrors(x) => assert (e + res.errors) + [x] == e + (res.errors + [x]);
    case Quiet =>
    case Dies =>
  }

  /** One more read outcome, while the reader is alive, applies that outcome's step. */
  lemma RunSnoc(cfg: LoopConfig, events: seq<ReadEvent>, ev: ReadEvent, prim: Primitives)
    requires cfg.delimiter != ""
    requires !Run(cfg, events, prim).died
    ensures Run(cfg, events + [ev], prim) == Apply(Run(cfg, events, prim), Step(cfg, ev, prim))
  {
    assert (events + [ev])[..|events|] == events;
  }

  /** Once the reader has died, later read outcomes change nothing. */
  lemma {:induction false} RunStopsAfterDeath(cfg: LoopConfig, events: seq<ReadEvent>, more: seq<ReadEvent>, prim: Primitives)
    requires cfg.delimiter != ""
    requires Run(cfg, events, prim).died
    ensures Run(cfg, events + more, prim) == Run(cfg, events, prim)
    decreases |more|
  {
    if more != [] {
      var shorter := more[..|more| - 1];
      RunStopsAfterDeath(cfg, events, shorter, prim);
      assert (events + more)[..|events + more| - 1] == events + shorter;
    } else {
      assert events + more == events;
    }
  }

  /** The queues only grow: a longer run extends the data and the error queue of a shorter one. */
  lemma {:induction false} RunExtends(cfg: LoopConfig, events: seq<ReadEvent>, more: seq<ReadEvent>, prim: Primitives)
    requires cfg.delimiter != ""
    ensures var a := Run(cfg, events, prim);
            var b := Run(cfg, events + more, prim);
            && a.data <= b.data && a.errors <= b.errors && (a.died ==> b.died)
    decreases |more|
  {
    if more != [] {
      var shorter := more[..|more| - 1];
      RunExtends(cfg, events, shorter, prim);
      assert (events + more)[..|events + more| - 1] == events + shorter;
    } else {
      assert events + more == events;
    }
  }
}

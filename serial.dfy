/** The serial connection manager (`SerialManager`): its construction, the choice of port,
    and the read loop, which puts each decoded line on its data queue or its error queue. */
module Serial {
  import opened Wrappers
  import opened Text
  import opened FormInputs
  import opened SerialDecode

  class SerialManager {
    const id: string
    const form: FormInput
    const port: string
    const baudrate: int
    /** The data queue, oldest entry first. */
    var queue: seq<Sample>
    /** The error queue, oldest entry first. */
    var errorQueue: seq<ErrorEvent>

    /** `_resolve_port(choice)`, with `ports` the devices the system reports, in its order. */
    static function ResolvePort(choice: string, ports: seq<string>): (r: string)
      ensures r == choice || (ports != [] && r == ports[0])
      // An explicit choice, anything but "auto" in any letter case, is kept as it is.
      ensures choice != "" && !SpellsAuto(choice) ==> r == choice
      // No choice, or "auto": the first port found; with none found, the choice itself.
      ensures (choice == "" || SpellsAuto(choice)) && ports != [] ==> r == ports[0]
      ensures (choice == "" || SpellsAuto(choice)) && ports == [] ==> r == choice
    {
      UpperIsAuto(choice);
      if choice != "" && Upper(choice) != "AUTO" then choice
      else if ports != [] then ports[0]
      else choice
    }

    /** `SerialManager(_id, form)`: `generatedId` stands for `uuid4().hex` and `ports` for
        the devices the system reports. No port is opened until `start`. */
    constructor(givenId: Option<string>, generatedId: string, givenForm: Option<FormInput>, ports: seq<string>)
      ensures id == (if givenId.Some? && givenId.value != "" then givenId.value else generatedId)
      ensures form == givenForm.GetOr(DefaultForm)
      ensures port == ResolvePort(form.serialPort, ports)
      ensures baudrate == form.baudrate
      ensures queue == [] && errorQueue == []
    {
      id := if givenId.Some? && givenId.value != "" then givenId.value else generatedId;
      form := givenForm.GetOr(DefaultForm);
      port := ResolvePort(givenForm.GetOr(DefaultForm).serialPort, ports);
      baudrate := givenForm.GetOr(DefaultForm).baudrate;
      queue := [];
      errorQueue := [];
    }

    /** The handling of one stripped, non-blank line: the policies run in order while no
        sample has been found, each failure replacing the error held, and then exactly one
        entry goes onto one of the two queues. `died` reports an exception that escapes the
        loop, in which case nothing is queued. */
    method HandleLine(cfg: LoopConfig, raw: string, now: real, prim: Primitives) returns (died: bool)
      requires cfg.delimiter != ""
      modifies this
      ensures RunResult(queue, errorQueue, died) ==
              Apply(RunResult(old(queue), old(errorQueue), false), Decode(cfg, raw, now, prim))
    {
      ghost var json := JsonAttempt(cfg, raw, now, prim);
      ghost var csv := CsvAttempt(cfg, raw, now, prim);
      ghost var line := LineAttempt(cfg, raw, now, prim);
      ghost var tail := if cfg.lineEnable then [line] else [];
      ghost var mid := (if cfg.csvEnable then [csv] else []) + tail;
      assert EnabledAttempts(cfg, raw, now, prim) == (if cfg.jsonEnable then [json] + mid else mid);
      assert mid == if cfg.csvEnable then [csv] + tail else tail;

      var parsed: Option<Sample> := None;
      var err: Option<ErrorEvent> := None;
      if cfg.jsonEnable {
        CombineStep(json, mid, None, raw);
        match JsonAttempt(cfg, raw, now, prim)
        case Crashed => return true;
        case Parsed(s) => parsed := Some(s);
        case Failed(e) => err := Some(e);
      }
      assert parsed.None? ==> Decode(cfg, raw, now, prim) == Combine(mid, err, raw);
      assert parsed.Some? ==> Decode(cfg, raw, now, prim) == ToData(parsed.value);

      if parsed.None? && cfg.csvEnable {
        CombineStep(csv, tail, err, raw);
        match CsvAttempt(cfg, raw, now, prim)
        case Crashed => return true;
        case Parsed(s) => parsed := Some(s);
        case Failed(e) => err := Some(e);
      }
      assert parsed.None? ==> Decode(cfg, raw, now, prim) == Combine(tail, err, raw);
      assert parsed.Some? ==> Decode(cfg, raw, now, prim) == ToData(parsed.value);

      if parsed.None? && cfg.lineEnable {
        assert tail == [line] + [];
        CombineStep(line, [], err, raw);
        match LineAttempt(cfg, raw, now, prim)
        case Crashed => return true;
        case Parsed(s) => parsed := Some(s);
        case Failed(e) => err := Some(e);
      }
      assert parsed.None? ==> Decode(cfg, raw, now, prim) == Combine([], err, raw);

      if parsed.Some? {
        queue := queue + [parsed.value];
      } else {
        errorQueue := errorQueue + [err.GetOr(LineError(UnknownParseError, raw))];
      }
      died := false;
    }

    /** One pass of the read loop: nothing when no data is waiting or the line is blank, a
        `serial_error` entry when the read raised, and the line's handling otherwise. */
    method Poll(cfg: LoopConfig, ev: ReadEvent, prim: Primitives) returns (died: bool)
      requires cfg.delimiter != ""
      modifies this
      ensures RunResult(queue, errorQueue, died) ==
              Apply(RunResult(old(queue), old(errorQueue), false), Step(cfg, ev, prim))
    {
      died := false;
      match ev {
        case NoData =>
        case ReadFailure(message) =>
          errorQueue := errorQueue + [ErrorEvent(SerialError, None, Some(message))];
        case Received(text, now) =>
          var raw := Strip(text);
          if raw != "" {
            died := HandleLine(cfg, raw, now, prim);
          }
      }
    }

    /** The settings the read loop fixes before its first read: empty text settings fall back
        to their defaults and out-of-range indices are kept as given. */
    method Settings(generatedKey: string) returns (cfg: LoopConfig)
      requires IsGeneratedKey(generatedKey)
      ensures cfg == NormalizeConfig(form, generatedKey)
    {
      var delimiter := if form.csvDelimiter != "" then form.csvDelimiter else ",";
      var keyIndex := SafeIndex(form.csvKeyIndex);
      var valueIndex := SafeIndex(form.csvValueIndex);
      var timeIndex := SafeIndex(form.csvTimeIndex);
      var keyField := if form.jsonKeyField != "" then form.jsonKeyField else "key";
      var valueField := if form.jsonValueField != "" then form.jsonValueField else "value";
      var timeField := if form.jsonTimeField.Some? && form.jsonTimeField.value != "" then form.jsonTimeField.value else "time";
      var lineKey := if form.lineKey != "" then form.lineKey else generatedKey;
      cfg := LoopConfig(form.jsonEnable, form.csvEnable, form.lineEnable, delimiter,
                        keyIndex, valueIndex, timeIndex, keyField, valueField, timeField, lineKey);
    }

    /** The read loop over the read outcomes it sees before it is stopped, with `generatedKey`
        standing for `uuid4().hex[:6]`. The queues end as the run of the decoder says, and the
        loop ends early exactly when the reader dies. */
    method ReadLoop(events: seq<ReadEvent>, generatedKey: string, prim: Primitives) returns (died: bool)
      requires IsGeneratedKey(generatedKey)
      modifies this
      ensures var res := Run(NormalizeConfig(form, generatedKey), events, prim);
              queue == old(queue) + res.data && errorQueue == old(errorQueue) + res.errors && died == res.died
    {
      var cfg := Settings(generatedKey);

      var i := 0;
      died := false;
      while i < |events| && !died
        invariant 0 <= i <= |events|
        invariant var res := Run(cfg, events[..i], prim);
                  queue == old(queue) + res.data && errorQueue == old(errorQueue) + res.errors && died == res.died
        decreases |events| - i
      {
        ghost var before := Run(cfg, events[..i], prim);
        RunSnoc(cfg, events[..i], events[i], prim);
        assert events[..i + 1] == events[..i] + [events[i]];
        died := Poll(cfg, events[i], prim);
        ApplyAfter(old(queue), old(errorQueue), before, Step(cfg, events[i], prim));
        i := i + 1;
      }
      if i < |events| {
        RunStopsAfterDeath(cfg, events[..i], events[i..], prim);
        assert events[..i] + events[i..] == events;
      } else {
        assert events[..i] == events;
      }
    }
  }
}

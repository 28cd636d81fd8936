/** Turning the connection form's payload, an untyped dictionary, into a `FormInput`
    (`form_dict_to_input` and its `safe_int` helper). */
module Forms {
  import opened Wrappers
  import opened Text
  import opened FormInputs

  /** A value of the decoded form payload: whatever JSON can carry there. */
  datatype FormValue =
    FNull | FBool(b: bool) | FNum(n: real) | FStr(s: string) | FList(items: seq<FormValue>) | FObject(fields: map<string, FormValue>)

  /** The payload: field name to value. */
  type FormDict = map<string, FormValue>

  /** `data.get(key)`, with `None` for an absent key. */
  function Get(data: FormDict, key: string): Option<FormValue> {
    if key in data then Some(data[key]) else None
  }

  /** `int(x)` of a float: truncation toward zero. */
  function TruncateReal(x: real): (n: int)
    ensures x >= 0.0 ==> 0 <= n && n as real <= x < n as real + 1.0
    ensures x < 0.0 ==> n <= 0 && n as real - 1.0 < x <= n as real
  {
    if x >= 0.0 then x.Floor else -((-x).Floor)
  }

  /** `int(v)`, with `None` where Python raises `TypeError` (null, lists, objects) or `ValueError`
      (a string that is not an integer literal). */
  function IntOf(v: FormValue): Option<int> {
    match v
    case FNull => None
    case FBool(b) => Some(if b then 1 else 0)
    case FNum(x) => Some(TruncateReal(x))
    case FStr(s) => ParseInt(s)
    case FList(_) => None
    case FObject(_) => None
  }

  /** `safe_int(val, default)`: never raises; gives `int(val)` when that succeeds and `default` otherwise. */
  function SafeInt(val: Option<FormValue>, default: Option<int>): (r: Option<int>)
    ensures val.Some? && IntOf(val.value).Some? ==> r == IntOf(val.value)
    ensures (val.None? || IntOf(val.value).None?) ==> r == default
    ensures default.Some? ==> r.Some?
  {
    match val
    case None => default
    case Some(v) =>
      match IntOf(v)
      case Some(n) => Some(n)
      case None => default
  }

  /** `bool(v)`: Python truthiness. */
  predicate Truthy(v: FormValue) {
    match v
    case FNull => false
    case FBool(b) => b
    case FNum(x) => x != 0.0
    case FStr(s) => s != ""
    case FList(items) => items != []
    case FObject(fields) => fields != map[]
  }

  /** `bool(data.get(key, default))`. */
  predicate Flag(data: FormDict, key: string, default: bool) {
    if key in data then Truthy(data[key]) else default
  }

  predicate HoldsString(data: FormDict, key: string) {
    key in data ==> data[key].FStr?
  }

  predicate HoldsStringOrNull(data: FormDict, key: string) {
    key in data ==> data[key].FStr? || data[key].FNull?
  }

  /** The declared types of `FormInput`'s text fields: `str`, and `Optional[str]` for the
      JSON time field; `line_key` may also be null, since only its truthiness is used. */
  predicate TextFieldsTyped(data: FormDict) {
    && HoldsString(data, "serial_port")
    && HoldsString(data, "csv_delimiter")
    && HoldsString(data, "json_key_field")
    && HoldsString(data, "json_value_field")
    && HoldsStringOrNull(data, "json_time_field")
    && HoldsStringOrNull(data, "line_key")
  }

  /** `data.get(key, default)` for a text field. */
  function TextField(data: FormDict, key: string, default: string): string
    requires HoldsString(data, key)
  {
    if key in data then data[key].s else default
  }

  /** `form_dict_to_input(data)`, with `generatedKey` standing for `uuid4().hex[:6]`. */
  function FormDictToInput(data: FormDict, generatedKey: string): (f: FormInput)
    requires IsGeneratedKey(generatedKey)
    requires TextFieldsTyped(data)
    // The line key is never empty: a given non-empty key is kept, anything else becomes the generated one.
    ensures f.lineKey != ""
    ensures f.lineKey == (if "line_key" in data && Truthy(data["line_key"]) then data["line_key"].s else generatedKey)
    // Integers fall back to their defaults when missing or not parsable.
    ensures f.baudrate == SafeInt(Get(data, "baudrate"), Some(115200)).value
    ensures f.csvKeyIndex == SafeInt(Get(data, "csv_key_index"), Some(0))
    ensures f.csvValueIndex == SafeInt(Get(data, "csv_value_index"), Some(1))
    ensures f.csvTimeIndex == SafeInt(Get(data, "csv_time_index"), None)
    // Enable flags follow truthiness; only the line format is on when its flag is missing.
    ensures f.lineEnable == Flag(data, "line_enable", true)
    ensures f.csvEnable == Flag(data, "csv_enable", false)
    ensures f.jsonEnable == Flag(data, "json_enable", false)
    // Text fields pass through unchanged when present, even when empty, and take their
    // defaults when absent.
    ensures f.serialPort == (if "serial_port" in data then data["serial_port"].s else "AUTO")
    ensures f.csvDelimiter == (if "csv_delimiter" in data then data["csv_delimiter"].s else ",")
    ensures f.jsonKeyField == (if "json_key_field" in data then data["json_key_field"].s else "key")
    ensures f.jsonValueField == (if "json_value_field" in data then data["json_value_field"].s else "value")
    ensures "json_time_field" in data ==>
              f.jsonTimeField == (if data["json_time_field"].FNull? then None else Some(data["json_time_field"].s))
    ensures "json_time_field" !in data ==> f.jsonTimeField == Some("time")
  {
    var lineKeyValue := Get(data, "line_key");
    var lineKey := if lineKeyValue.Some? && Truthy(lineKeyValue.value) then lineKeyValue.value.s else generatedKey;
    FormInput(
      serialPort := TextField(data, "serial_port", "AUTO"),
      baudrate := SafeInt(Get(data, "baudrate"), Some(115200)).value,
      lineEnable := Flag(data, "line_enable", true),
      lineKey := lineKey,
      csvEnable := Flag(data, "csv_enable", false),
      csvDelimiter := TextField(data, "csv_delimiter", ","),
      csvKeyIndex := SafeInt(Get(data, "csv_key_index"), Some(0)),
      csvValueIndex := SafeInt(Get(data, "csv_value_index"), Some(1)),
      csvTimeIndex := SafeInt(Get(data, "csv_time_index"), None),
      jsonEnable := Flag(data, "json_enable", false),
      jsonKeyField := TextField(data, "json_key_field", "key"),
      jsonValueField := TextField(data, "json_value_field", "value"),
      jsonTimeField :=
        if "json_time_field" !in data then Some("time")
        else if data["json_time_field"].FNull? then None
        else Some(data["json_time_field"].s))
  }

  /** An empty payload gives the record's own defaults, except that the line key is already
      the generated one: the two places that spell out the defaults agree. */
  lemma EmptyPayloadIsDefault(generatedKey: string)
    requires IsGeneratedKey(generatedKey)
    ensures FormDictToInput(map[], generatedKey) == DefaultForm.(lineKey := generatedKey)
  {
    var f := FormDictToInput(map[], generatedKey);
    assert f.baudrate == 115200 && f.csvKeyIndex == Some(0) && f.csvValueIndex == Some(1) && f.csvTimeIndex == None;
  }

  /** A flag given as any non-empty string, "false" included, turns its format on; an empty
      string turns it off. */
  lemma StringFlagsAreTruthy(data: FormDict, key: string, default: bool)
    requires key in data && data[key].FStr?
    ensures Flag(data, key, default) <==> data[key].s != ""
  {
  }

  /** A payload with the values the connection form shows before the user edits anything
      (text fields for the indices, the optional time index left empty) gives the record's
      defaults: 115200 baud, key index 0, value index 1 and no time index. */
  lemma FormDefaultsParse(data: FormDict, generatedKey: string)
    requires IsGeneratedKey(generatedKey) && TextFieldsTyped(data)
    requires Get(data, "baudrate") == Some(FStr("115200"))
    requires Get(data, "csv_key_index") == Some(FStr("0"))
    requires Get(data, "csv_value_index") == Some(FStr("1"))
    requires Get(data, "csv_time_index") == Some(FStr(""))
    ensures FormDictToInput(data, generatedKey).baudrate == 115200
    ensures FormDictToInput(data, generatedKey).csvKeyIndex == Some(0)
    ensures FormDictToInput(data, generatedKey).csvValueIndex == Some(1)
    ensures FormDictToInput(data, generatedKey).csvTimeIndex == None
  {
    IntStringRoundTrip(115200);
    IntStringRoundTrip(0);
    IntStringRoundTrip(1);
    BaudrateText();
    assert IntToString(0) == "0" by { assert DigitChar(0) == '0'; }
    assert IntToString(1) == "1" by { assert DigitChar(1) == '1'; }
    assert Strip("") == "";
  }

  lemma BaudrateText()
    ensures IntToString(115200) == "115200"
  {
    assert DigitChar(0) == '0' && DigitChar(1) == '1' && DigitChar(2) == '2' && DigitChar(5) == '5';
    assert NatToString(1) == "1";
    assert NatToString(11) == "1" + [DigitChar(1)] == "11";
    assert NatToString(115) == "11" + [DigitChar(5)] == "115";
    assert NatToString(1152) == "115" + [DigitChar(2)] == "1152";
    assert NatToString(11520) == "1152" + [DigitChar(0)] == "11520";
    assert NatToString(115200) == "11520" + [DigitChar(0)] == "115200";
  }
}

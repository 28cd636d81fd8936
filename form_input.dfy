/** The connection settings one device connection is opened with (`FormInput`). */
module FormInputs {
  import opened Wrappers

  /** One connection's settings: where to connect and which line formats to try, with each
      format's own fields. `None` in an index or in the time field stands for Python's `None`. */
  datatype FormInput = FormInput(
    serialPort: string,
    baudrate: int,
    lineEnable: bool,
    lineKey: string,
    csvEnable: bool,
    csvDelimiter: string,
    csvKeyIndex: Option<int>,
    csvValueIndex: Option<int>,
    csvTimeIndex: Option<int>,
    jsonEnable: bool,
    jsonKeyField: string,
    jsonValueField: string,
    jsonTimeField: Option<string>)

  /** `FormInput()` with every field at its declared default: automatic port choice at
      115200 baud, and only the line format enabled. The empty line key is replaced by a
      generated one when the reader starts. */
  const DefaultForm: FormInput := FormInput(
    serialPort := "AUTO",
    baudrate := 115200,
    lineEnable := true,
    lineKey := "",
    csvEnable := false,
    csvDelimiter := ",",
    csvKeyIndex := Some(0),
    csvValueIndex := Some(1),
    csvTimeIndex := None,
    jsonEnable := false,
    jsonKeyField := "key",
    jsonValueField := "value",
    jsonTimeField := Some("time"))
}

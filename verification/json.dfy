/** Opaque JSON payloads.
    The dispatcher never looks inside identifiers, parameters, results or
    error data; it only stores, copies and echoes them. */
module Json {

  /** A JSON value as far as the dispatcher needs to tell values apart.
      `Structured` stands for any object or array payload the dispatcher
      does not look into, `Fields` for the values a payload was decoded
      into, in field order, and `GoError` for a Go error value (a decoder or
      unmarshal failure) used as error data. */
  datatype Value =
    | Null
    | Text(s: string)
    | Number(n: int)
    | Structured(tag: nat)
    | Fields(values: seq<Value>)
    | GoError(reason: string)
}

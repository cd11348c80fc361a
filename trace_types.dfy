/** Values shared by every part of the pipeline: the trace event as the
    event source delivers it, the failure wrappers that stand for the
    exceptions the code can raise, and what is written to the console. */
module TraceTypes {

  datatype Option<T> = None | Some(value: T)

  /** The exceptions the model represents (the others the core can raise
      are listed in the README). */
  datatype Exception =
    | ArgumentOutOfRange   // String.Substring with a negative length, or a payload read that fails
    | NotImplemented       // a processor operation that is not implemented

  /** The result of an operation that either returns a value or throws. */
  datatype Result<T> = Ok(value: T) | Throws(error: Exception)

  /** What reading a payload value gives: its string form, a null object,
      or an ArgumentOutOfRangeException (the trace library sometimes fails
      on the last field). */
  datatype FieldValue = Value(text: string) | NullValue | Unreadable

  /** One payload field of an event. */
  datatype PayloadField = PayloadField(name: string, value: FieldValue)

  /** A trace event, read-only to the core. `timeStamp` is the already
      formatted time stamp (DateTime.ToString()). */
  datatype Event = Event(
    eventName: string,
    taskName: string,
    processName: string,
    processId: int,
    threadId: int,
    timeStamp: string,
    payload: seq<PayloadField>)

  /** One (key, count) row of a frequency report. */
  datatype Entry = Entry(key: string, count: nat)

  /** What the pipeline writes to the console: raw characters, a frequency
      report rendered as a console table, or the end-of-run summary. */
  datatype Output =
    | Text(chars: string)
    | CountTable(caption: string, keyLabel: string, rows: seq<Entry>)
    | Summary(processed: nat, displayed: nat, eventsLost: int)
}

/** What the query-string writer shares with the JSV serializer it calls:
    type descriptors, runtime values, the process-wide JsState flags, the
    text sink and the shape of a write function. */
module TextCommon {
  import opened Wrappers
  import opened Exceptions

  /** A .NET type, reduced to the properties the strategy choice inspects. */
  datatype TypeDesc = TypeDesc(
    name: string,
    /** The type is System.Object itself. */
    isObject: bool,
    /** The type is assignable from IDictionary, or implements it. */
    isDictionary: bool,
    /** The type is assignable from IEnumerable, or implements it. */
    isEnumerable: bool,
    isClass: bool,
    isInterface: bool,
    /** WriteType<T, JsvTypeSerializer>.Write is non-null for the type. */
    hasTypeWriter: bool)

  /** A non-null runtime value together with its runtime type (GetType()). */
  datatype Value =
    | Dictionary(runtimeType: TypeDesc, entries: seq<Entry>)
    | Scalar(runtimeType: TypeDesc, literal: string)

  /** One key/value pair of an IDictionary, in the dictionary's own
      enumeration order; keys are never null, values may be. */
  datatype Entry = Entry(key: Value, value: Option<Value>)

  /** A snapshot of JsState's three process-wide flags. */
  datatype Flags = Flags(queryStringMode: bool, writingKeyCount: int, isWritingValue: bool)

  /** What a write function does with one value: the text it appends, or
      the exception it throws. */
  datatype Written = Wrote(text: string) | Threw(error: Exc)

  /** A write function of the JSV serializer (a WriteObjectDelegate). It
      sees the JsState flags current at the call, which is how the per-type
      writers adapt their escaping to the query-string context. */
  type Writer = (Flags, Option<Value>) -> Written

  /** JsState: the flags per-type writers read to vary their formatting. */
  class JsState {
    var queryStringMode: bool
    var writingKeyCount: int
    var isWritingValue: bool

    /** The .NET defaults of the three static fields. */
    constructor ()
      ensures Snapshot() == Flags(false, 0, false)
    {
      queryStringMode, writingKeyCount, isWritingValue := false, 0, false;
    }

    function Snapshot(): Flags
      reads this
    {
      Flags(queryStringMode, writingKeyCount, isWritingValue)
    }
  }

  /** The TextWriter the output goes to, seen as a growing string. */
  class TextSink {
    var text: string

    constructor ()
      ensures text == ""
    {
      text := "";
    }

    method Write(s: string)
      modifies this
      ensures text == old(text) + s
    {
      text := text + s;
    }
  }
}

/** Small value shapes shared by every module: an optional value, and the
    three states a JSON field can be in once JavaScript reads it. */
module Values {

  datatype Option<+T> = None | Some(value: T)

  /** A record field as JavaScript sees it: `null`, absent (`undefined`),
      or present with a value. */
  datatype Slot<+T> = Null | Undefined | Present(value: T)

  /** The text a template literal such as `${x}` produces for a string field. */
  function SlotText(s: Slot<string>): string
  {
    match s
    case Null => "null"
    case Undefined => "undefined"
    case Present(v) => v
  }
}

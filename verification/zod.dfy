/**
 * The validation issues the schema validators report. A failed parse
 * carries every issue found, in field order, not only the first.
 */
module Zod {

  datatype Issue =
    | TooSmall(path: string, minimum: nat, message: string)
    | TooBig(path: string, maximum: nat, message: string)
    | InvalidEnumValue(path: string, options: seq<string>, received: string)

  /** The message a `min(1)` string check reports when none is supplied. */
  const DefaultMinOneMessage := "String must contain at least 1 character(s)"
}

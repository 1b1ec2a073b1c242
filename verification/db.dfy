/**
 * What the database layer contributes to the models: timestamps, and the integrity
 * errors a write raises when it breaks a column constraint.
 */
module Db {
  /** A `DateTimeField` value, as an instant on one clock. */
  type Time = int

  datatype IntegrityError =
    | UniqueViolation(columns: seq<string>)
    | NotNullViolation(column: string)
}

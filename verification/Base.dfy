/** Datatypes and small facts shared by every module. */
module Base {

  datatype Option<+T> = None | Some(value: T)

  /** A value, or the error the program raises instead. */
  datatype Result<+T, +E> = Ok(value: T) | Err(error: E)

  type Byte = b: int | 0 <= b < 256

  const ROLES: set<string> := {"validator", "observer"}

  /** What a blank MONITORING_MODE stands for, by role. */
  function MonitoringDefault(role: string): string {
    if role == "validator" then "push" else if role == "observer" then "off" else ""
  }
}

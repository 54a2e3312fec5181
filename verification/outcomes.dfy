/** Results of the collaborator calls the exporter makes, and optional values. */
module Outcomes {

  /** What a ModemManager getter returns: a value, or an error that the exporter only logs. */
  datatype Result<T> = Ok(value: T) | Err

  datatype Option<T> = None | Some(value: T)
}
